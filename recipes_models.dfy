/**
 * The recipe tables (tags, ingredients, recipes, the ingredient lines of a recipe and its tag
 * links) with the constraints the schema declares on them, and what deleting a recipe or an
 * ingredient does to the lines that refer to it.
 */
module RecipesModels {
  import opened Base
  import opened Collections

  datatype Tag = Tag(id: TagId, name: string, color: string, slug: string)

  datatype Ingredient = Ingredient(id: IngredientId, name: string, measurementUnit: string)

  /** One ingredient line of a recipe; `ingredient` becomes None when that ingredient is deleted. */
  datatype IngredientDetail = IngredientDetail(recipe: RecipeId, ingredient: Option<IngredientId>, amount: int)

  datatype Recipe = Recipe(id: RecipeId, author: UserId, name: string, image: string, text: string, cookingTime: int)

  const MinAmount := 1
  const MinCookingTime := 1

  /**
   * The stored rows. `recipes` is in the default listing order, `lines` in insertion order;
   * the recipe-tag many-to-many table is a set of (recipe, tag) pairs.
   */
  datatype Tables = Tables(
    tags: map<TagId, Tag>,
    ingredients: map<IngredientId, Ingredient>,
    recipes: seq<Recipe>,
    lines: seq<IngredientDetail>,
    recipeTags: set<(RecipeId, TagId)>)

  predicate TagsKeyed(tags: map<TagId, Tag>) {
    forall k :: k in tags ==> tags[k].id == k
  }

  /** Tag names are unique. */
  predicate TagNamesUnique(tags: map<TagId, Tag>) {
    forall a, b :: a in tags && b in tags && a != b ==> tags[a].name != tags[b].name
  }

  predicate IngredientsKeyed(ingredients: map<IngredientId, Ingredient>) {
    forall k :: k in ingredients ==> ingredients[k].id == k
  }

  /** Ingredient names are unique. */
  predicate IngredientNamesUnique(ingredients: map<IngredientId, Ingredient>) {
    forall a, b :: a in ingredients && b in ingredients && a != b ==> ingredients[a].name != ingredients[b].name
  }

  /** Descending ids: a recipe listed earlier has the larger id. */
  predicate IdAbove(a: Recipe, b: Recipe) {
    a.id > b.id
  }

  /** The default listing order of recipes is by descending id. */
  predicate ListedByIdDesc(recipes: seq<Recipe>) {
    Pairwise(recipes, IdAbove)
  }

  /** Two recipes differ in their (name, author, text) triple. */
  predicate KeyDiffers(a: Recipe, b: Recipe) {
    a.name != b.name || a.author != b.author || a.text != b.text
  }

  /** No two recipes share (name, author, text). */
  predicate RecipeKeysUnique(recipes: seq<Recipe>) {
    Pairwise(recipes, KeyDiffers)
  }

  predicate CookingTimesValid(recipes: seq<Recipe>) {
    forall r :: r in recipes ==> r.cookingTime >= MinCookingTime
  }

  /** Two lines differ in their (recipe, ingredient) pair; as in SQL, a NULL ingredient never collides. */
  predicate LineKeysDiffer(a: IngredientDetail, b: IngredientDetail) {
    a.recipe != b.recipe || a.ingredient.None? || a.ingredient != b.ingredient
  }

  /** No two lines share (recipe, ingredient). */
  predicate LinesUnique(lines: seq<IngredientDetail>) {
    Pairwise(lines, LineKeysDiffer)
  }

  predicate AmountsValid(lines: seq<IngredientDetail>) {
    forall l :: l in lines ==> l.amount >= MinAmount
  }

  function RecipeIds(recipes: seq<Recipe>): set<RecipeId> {
    set r | r in recipes :: r.id
  }

  /** Every line belongs to a stored recipe and names a stored ingredient or none. */
  predicate LinesReferToStored(t: Tables) {
    forall l :: l in t.lines ==>
      l.recipe in RecipeIds(t.recipes) && (l.ingredient.Some? ==> l.ingredient.value in t.ingredients)
  }

  /** Every tag link joins a stored recipe to a stored tag. */
  predicate TagLinksReferToStored(t: Tables) {
    forall p :: p in t.recipeTags ==> p.0 in RecipeIds(t.recipes) && p.1 in t.tags
  }

  /** Every constraint the schema declares, together. */
  predicate Valid(t: Tables) {
    && TagsKeyed(t.tags) && TagNamesUnique(t.tags)
    && IngredientsKeyed(t.ingredients) && IngredientNamesUnique(t.ingredients)
    && ListedByIdDesc(t.recipes) && RecipeKeysUnique(t.recipes) && CookingTimesValid(t.recipes)
    && LinesUnique(t.lines) && AmountsValid(t.lines)
    && LinesReferToStored(t) && TagLinksReferToStored(t)
  }

  function OfRecipe(id: RecipeId): IngredientDetail -> bool {
    (l: IngredientDetail) => l.recipe == id
  }

  function NotOfRecipe(id: RecipeId): IngredientDetail -> bool {
    (l: IngredientDetail) => l.recipe != id
  }

  function RecipeOtherThan(id: RecipeId): Recipe -> bool {
    (r: Recipe) => r.id != id
  }

  function ByAuthor(author: UserId): Recipe -> bool {
    (r: Recipe) => r.author == author
  }

  /** The lines of recipe `id`, in order. */
  function LinesOf(lines: seq<IngredientDetail>, id: RecipeId): seq<IngredientDetail> {
    Filter(lines, OfRecipe(id))
  }

  /** The lines of every recipe except `id`, in order. */
  function OtherLines(lines: seq<IngredientDetail>, id: RecipeId): seq<IngredientDetail> {
    Filter(lines, NotOfRecipe(id))
  }

  /** The tag links of every recipe except `id`. */
  function OtherTagLinks(links: set<(RecipeId, TagId)>, id: RecipeId): set<(RecipeId, TagId)> {
    set p | p in links && p.0 != id
  }

  /** Deleting a recipe deletes its lines (on_delete=CASCADE) and its tag links. */
  function DeleteRecipe(t: Tables, id: RecipeId): (r: Tables)
    ensures id !in RecipeIds(r.recipes)
    ensures forall x :: x in r.recipes <==> x in t.recipes && x.id != id
    ensures forall l :: l in r.lines <==> l in t.lines && l.recipe != id
    ensures forall p :: p in r.recipeTags <==> p in t.recipeTags && p.0 != id
    ensures r.tags == t.tags && r.ingredients == t.ingredients
  {
    t.(recipes := Filter(t.recipes, RecipeOtherThan(id)),
       lines := OtherLines(t.lines, id),
       recipeTags := OtherTagLinks(t.recipeTags, id))
  }

  /** A line after ingredient `id` is deleted: its ingredient becomes NULL (on_delete=SET_NULL). */
  function NullIngredient(l: IngredientDetail, id: IngredientId): IngredientDetail {
    if l.ingredient == Some(id) then l.(ingredient := None) else l
  }

  /** Deleting an ingredient keeps every line, with that ingredient replaced by NULL. */
  function DeleteIngredient(t: Tables, id: IngredientId): (r: Tables)
    ensures r.ingredients == t.ingredients - {id}
    ensures |r.lines| == |t.lines|
    ensures forall i :: 0 <= i < |t.lines| ==>
      && r.lines[i].recipe == t.lines[i].recipe
      && r.lines[i].amount == t.lines[i].amount
      && r.lines[i].ingredient != Some(id)
      && (t.lines[i].ingredient != Some(id) ==> r.lines[i].ingredient == t.lines[i].ingredient)
    ensures r.recipes == t.recipes && r.tags == t.tags && r.recipeTags == t.recipeTags
  {
    t.(ingredients := t.ingredients - {id},
       lines := seq(|t.lines|, i requires 0 <= i < |t.lines| => NullIngredient(t.lines[i], id)))
  }

  lemma DeleteRecipeKeepsValid(t: Tables, id: RecipeId)
    requires Valid(t)
    ensures Valid(DeleteRecipe(t, id))
  {
    var r := DeleteRecipe(t, id);
    FilterPairwise(t.recipes, RecipeOtherThan(id), IdAbove);
    FilterPairwise(t.recipes, RecipeOtherThan(id), KeyDiffers);
    FilterPairwise(t.lines, NotOfRecipe(id), LineKeysDiffer);
    forall l | l in r.lines ensures l.recipe in RecipeIds(r.recipes) {
      var x :| x in t.recipes && x.id == l.recipe;
      assert x in r.recipes;
    }
    forall p | p in r.recipeTags ensures p.0 in RecipeIds(r.recipes) {
      var x :| x in t.recipes && x.id == p.0;
      assert x in r.recipes;
    }
  }

  lemma DeleteIngredientKeepsValid(t: Tables, id: IngredientId)
    requires Valid(t)
    ensures Valid(DeleteIngredient(t, id))
  {
    var r := DeleteIngredient(t, id);
    forall i, j | 0 <= i < j < |r.lines| ensures LineKeysDiffer(r.lines[i], r.lines[j]) {
      assert LineKeysDiffer(t.lines[i], t.lines[j]);
    }
    forall l | l in r.lines ensures l.amount >= MinAmount && l.recipe in RecipeIds(r.recipes)
      && (l.ingredient.Some? ==> l.ingredient.value in r.ingredients)
    {
      var i :| 0 <= i < |r.lines| && r.lines[i] == l;
      assert t.lines[i] in t.lines;
    }
  }

  /** Deleting recipe `id` leaves no line of it and keeps the lines of every other recipe, in order. */
  lemma {:induction false} DeleteRecipeCascades(t: Tables, id: RecipeId, other: RecipeId)
    requires other != id
    ensures LinesOf(DeleteRecipe(t, id).lines, id) == []
    ensures LinesOf(DeleteRecipe(t, id).lines, other) == LinesOf(t.lines, other)
  {
    var r := DeleteRecipe(t, id);
    FilterDropsAll(r.lines, OfRecipe(id));
    FilterFilter(t.lines, NotOfRecipe(id), OfRecipe(other));
  }
}
