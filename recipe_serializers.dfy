/**
 * The recipe write serializer: the checks a submitted recipe must pass, and what `create` and
 * `update` write to the recipe, ingredient-line and tag-link tables. Also the two per-requester
 * flags of the read serializer.
 */
module RecipeSerializers {
  import opened Base
  import opened Collections
  import opened RecipesModels
  import opened Text

  /** One submitted ingredient: the id of a stored ingredient and its amount. */
  datatype IngredientInput = IngredientInput(ingredient: IngredientId, amount: int)

  /** A submitted recipe; a list that was not sent is None. */
  datatype Submission = Submission(
    name: string, image: string, text: string, cookingTime: int,
    ingredients: Option<seq<IngredientInput>>, tags: Option<seq<TagId>>)

  function IngredientIds(ins: seq<IngredientInput>): (r: seq<IngredientId>)
    ensures |r| == |ins|
    ensures forall i :: 0 <= i < |ins| ==> r[i] == ins[i].ingredient
  {
    seq(|ins|, i requires 0 <= i < |ins| => ins[i].ingredient)
  }

  /**
   * `validate_ingredients`: an empty list is refused; a non-empty one is accepted iff no
   * ingredient id occurs twice (`len(set(ids)) == len(ids)`), and is returned unchanged.
   */
  function ValidateIngredients(ins: seq<IngredientInput>): (r: Result<seq<IngredientInput>>)
    ensures |ins| == 0 ==> r == Err(ValidationError(NoIngredients))
    ensures r.Ok? <==> |ins| > 0 && NoDuplicates(IngredientIds(ins))
    ensures |ins| > 0 && r.Err? ==> r.error == ValidationError(RepeatedIngredients)
    ensures r.Ok? ==> r.value == ins
  {
    if |ins| == 0 then Err(ValidationError(NoIngredients))
    else
      SetSizeIsLengthIffNoDuplicates(IngredientIds(ins));
      if |SetOf(IngredientIds(ins))| != |ins| then Err(ValidationError(RepeatedIngredients)) else Ok(ins)
  }

  /** `validate_cooking_time`: below one minute is refused; anything else is returned unchanged. */
  function ValidateCookingTime(cookTime: int): (r: Result<int>)
    ensures r.Ok? <==> cookTime >= MinCookingTime
    ensures r.Err? ==> r.error == ValidationError(CookingTimeTooShort)
    ensures r.Ok? ==> r.value == cookTime
  {
    if cookTime < 1 then Err(ValidationError(CookingTimeTooShort)) else Ok(cookTime)
  }

  /** `validate_tags`: an empty list or one with a repeated tag is refused; else it is returned unchanged. */
  function ValidateTags(tags: seq<TagId>): (r: Result<seq<TagId>>)
    ensures |tags| == 0 ==> r == Err(ValidationError(NoTags))
    ensures r.Ok? <==> |tags| > 0 && NoDuplicates(tags)
    ensures |tags| > 0 && r.Err? ==> r.error == ValidationError(RepeatedTags)
    ensures r.Ok? ==> r.value == tags
  {
    if |tags| == 0 then Err(ValidationError(NoTags))
    else
      SetSizeIsLengthIffNoDuplicates(tags);
      if |SetOf(tags)| != |tags| then Err(ValidationError(RepeatedTags)) else Ok(tags)
  }

  /** The per-item field checks: each id names a stored ingredient and each amount is at least 1. */
  predicate IngredientItemsValid(t: Tables, ins: seq<IngredientInput>) {
    forall i :: 0 <= i < |ins| ==> ins[i].ingredient in t.ingredients && ins[i].amount >= MinAmount
  }

  /** The per-item field check of the tag list: each id names a stored tag. */
  predicate TagItemsValid(t: Tables, tags: seq<TagId>) {
    forall i :: 0 <= i < |tags| ==> tags[i] in t.tags
  }

  predicate IngredientsAccepted(t: Tables, ins: seq<IngredientInput>) {
    IngredientItemsValid(t, ins) && |ins| > 0 && NoDuplicates(IngredientIds(ins))
  }

  predicate TagsAccepted(t: Tables, tags: seq<TagId>) {
    TagItemsValid(t, tags) && |tags| > 0 && NoDuplicates(tags)
  }

  /**
   * Every field passes its own checks: both lists sent and valid, and name and text non-blank
   * once their character fields have trimmed them.
   */
  predicate FieldsAccepted(t: Tables, sub: Submission) {
    && sub.ingredients.Some? && IngredientsAccepted(t, sub.ingredients.value)
    && sub.tags.Some? && TagsAccepted(t, sub.tags.value)
    && Strip(sub.name) != "" && Strip(sub.text) != ""
    && sub.cookingTime >= MinCookingTime
  }

  /** The submission as its character fields clean it: name and text trimmed. */
  function Trimmed(sub: Submission): Submission {
    sub.(name := Strip(sub.name), text := Strip(sub.text))
  }

  function SameRecipe(name: string, text: string, author: UserId): Recipe -> bool {
    (x: Recipe) => x.name == name && x.text == text && x.author == author
  }

  /**
   * `validate` as written: refused iff some stored recipe has this name and text and the
   * requester as author. The recipe being updated is not excluded from the search.
   */
  function Validate(recipes: seq<Recipe>, requester: UserId, name: string, text: string): (r: Outcome)
    ensures r.Fail? <==> exists x :: x in recipes && x.name == name && x.text == text && x.author == requester
    ensures r.Fail? ==> r.error == ValidationError(DuplicateRecipe)
  {
    var same := Filter(recipes, SameRecipe(name, text, requester));
    if same != [] then
      assert same[0] in same;
      Fail(ValidationError(DuplicateRecipe))
    else Pass
  }

  /** No stored recipe other than `instance` has this name, text and author. */
  predicate NoClash(recipes: seq<Recipe>, author: UserId, instance: Option<RecipeId>, name: string, text: string) {
    forall x :: x in recipes && x.name == name && x.text == text && x.author == author ==> Some(x.id) == instance
  }

  function OtherThan(instance: Option<RecipeId>): Recipe -> bool {
    (x: Recipe) => Some(x.id) != instance
  }

  /** `validate` as intended: the same search, leaving out the recipe being updated, if any. */
  function ValidateExcluding(recipes: seq<Recipe>, requester: UserId, instance: Option<RecipeId>,
                             name: string, text: string): (r: Outcome)
    ensures r.Pass? <==> NoClash(recipes, requester, instance, name, text)
    ensures r.Fail? ==> r.error == ValidationError(DuplicateRecipe)
  {
    Validate(Filter(recipes, OtherThan(instance)), requester, name, text)
  }

  /** On create, where there is no instance, the intended check is the written one. */
  lemma ValidateExcludingAgreesOnCreate(recipes: seq<Recipe>, requester: UserId, name: string, text: string)
    ensures ValidateExcluding(recipes, requester, None, name, text) == Validate(recipes, requester, name, text)
  {
    FilterKeepsAll(recipes, OtherThan(None));
  }

  /**
   * Resubmitting a stored recipe with its name and text unchanged, as its author does when
   * editing only its ingredients, tags or picture, is refused by the written check, and accepted
   * by the intended one whenever the table's (name, author, text) constraint holds.
   */
  lemma ValidateRefusesUnchangedResubmission(recipes: seq<Recipe>, x: Recipe)
    requires x in recipes
    ensures Validate(recipes, x.author, x.name, x.text).Fail?
    ensures RecipeKeysUnique(recipes) ==> ValidateExcluding(recipes, x.author, Some(x.id), x.name, x.text).Pass?
  {
    if RecipeKeysUnique(recipes) {
      var k :| 0 <= k < |recipes| && recipes[k] == x;
      forall y | y in recipes && y.name == x.name && y.text == x.text && y.author == x.author
        ensures Some(y.id) == Some(x.id)
      {
        var m :| 0 <= m < |recipes| && recipes[m] == y;
        assert !KeyDiffers(recipes[m], recipes[k]) && !KeyDiffers(recipes[k], recipes[m]);
      }
    }
  }

  /**
   * Everything the serializer checks, as written: the fields, then `validate`, which refuses the
   * submission whenever any stored recipe of the requester has its trimmed name and text.
   */
  predicate Accepted(t: Tables, requester: UserId, sub: Submission) {
    FieldsAccepted(t, sub) && NoClash(t.recipes, requester, None, Strip(sub.name), Strip(sub.text))
  }

  /** Everything the serializer checks with the intended duplicate check, which skips `instance`. */
  predicate AcceptedExcluding(t: Tables, requester: UserId, instance: Option<RecipeId>, sub: Submission) {
    FieldsAccepted(t, sub) && NoClash(t.recipes, requester, instance, Strip(sub.name), Strip(sub.text))
  }

  /**
   * What the store relies on in validated data: both lists sent and accepted, the cooking time at
   * least 1, and no stored recipe of the requester with this (already trimmed) name and text.
   */
  predicate Validated(t: Tables, requester: UserId, v: Submission) {
    && v.ingredients.Some? && IngredientsAccepted(t, v.ingredients.value)
    && v.tags.Some? && TagsAccepted(t, v.tags.value)
    && v.cookingTime >= MinCookingTime
    && NoClash(t.recipes, requester, None, v.name, v.text)
  }

  /**
   * The field stage of `is_valid`: a list that was not sent, an unknown id, an amount below 1 or
   * a blank name or text are field errors, and the `validate_*` methods run in field order.
   */
  function ValidateFields(t: Tables, sub: Submission): (r: Outcome)
    ensures r.Pass? <==> FieldsAccepted(t, sub)
    ensures r.Fail? ==> r.error.ValidationError? && r.error.reason != DuplicateRecipe
  {
    if sub.ingredients.None? || !IngredientItemsValid(t, sub.ingredients.value) then Fail(ValidationError(InvalidField))
    else if ValidateIngredients(sub.ingredients.value).Err? then Fail(ValidateIngredients(sub.ingredients.value).error)
    else if sub.tags.None? || !TagItemsValid(t, sub.tags.value) then Fail(ValidationError(InvalidField))
    else if ValidateTags(sub.tags.value).Err? then Fail(ValidateTags(sub.tags.value).error)
    else if Strip(sub.name) == "" || Strip(sub.text) == "" then Fail(ValidationError(InvalidField))
    else if ValidateCookingTime(sub.cookingTime).Err? then Fail(ValidateCookingTime(sub.cookingTime).error)
    else Pass
  }

  /**
   * `is_valid` of the write serializer, on create and on update alike: the field stage first,
   * then the table-wide `validate` as written on the trimmed values, which runs only once every
   * field passed. The validated data is the trimmed submission.
   */
  function ValidateSubmission(t: Tables, requester: UserId, sub: Submission): (r: Result<Submission>)
    ensures r.Ok? <==> Accepted(t, requester, sub)
    ensures r.Ok? ==> r.value == Trimmed(sub)
    ensures r.Err? ==> r.error.ValidationError?
    ensures r.Err? ==> (r.error == ValidationError(DuplicateRecipe) <==> FieldsAccepted(t, sub))
  {
    match ValidateFields(t, sub)
    case Fail(e) => Err(e)
    case Pass =>
      match Validate(t.recipes, requester, Strip(sub.name), Strip(sub.text))
      case Fail(e) => Err(e)
      case Pass => Ok(Trimmed(sub))
  }

  /** `is_valid` with the intended duplicate check in place of the written one. */
  function ValidateSubmissionExcluding(t: Tables, requester: UserId, instance: Option<RecipeId>,
                                       sub: Submission): (r: Result<Submission>)
    ensures r.Ok? <==> AcceptedExcluding(t, requester, instance, sub)
    ensures r.Ok? ==> r.value == Trimmed(sub)
    ensures r.Err? ==> r.error.ValidationError?
    ensures r.Err? ==> (r.error == ValidationError(DuplicateRecipe) <==> FieldsAccepted(t, sub))
  {
    match ValidateFields(t, sub)
    case Fail(e) => Err(e)
    case Pass =>
      match ValidateExcluding(t.recipes, requester, instance, Strip(sub.name), Strip(sub.text))
      case Fail(e) => Err(e)
      case Pass => Ok(Trimmed(sub))
  }

  /**
   * Whatever the written check accepts the intended one accepts too, whatever the instance, and
   * on create the two agree.
   */
  lemma WrittenCheckIsStricter(t: Tables, requester: UserId, instance: Option<RecipeId>, sub: Submission)
    ensures ValidateSubmission(t, requester, sub).Ok? ==> ValidateSubmissionExcluding(t, requester, instance, sub).Ok?
    ensures ValidateSubmissionExcluding(t, requester, None, sub) == ValidateSubmission(t, requester, sub)
  {
    ValidateExcludingAgreesOnCreate(t.recipes, requester, Strip(sub.name), Strip(sub.text));
  }

  /**
   * The written check refuses every update of a stored recipe by its author that keeps the name
   * and text (up to white space at their ends), as a duplicate of the recipe itself.
   */
  lemma UpdateKeepingNameAndTextIsRefused(t: Tables, instance: Recipe, sub: Submission)
    requires instance in t.recipes
    requires Strip(sub.name) == instance.name && Strip(sub.text) == instance.text
    ensures ValidateSubmission(t, instance.author, sub).Err?
  {
    ValidateRefusesUnchangedResubmission(t.recipes, instance);
  }

  /** A name or text of white space only is refused as blank, before any duplicate check. */
  lemma BlankNameIsRefused(t: Tables, requester: UserId, sub: Submission)
    requires forall i :: 0 <= i < |sub.name| ==> IsSpace(sub.name[i])
    ensures ValidateSubmission(t, requester, sub).Err?
    ensures ValidateSubmission(t, requester, sub).error != ValidationError(DuplicateRecipe)
  {
  }

  /**
   * What `is_valid` hands to `save` is trimmed, accepted in its own right, non-blank, and meets
   * what `create` requires.
   */
  lemma ValidatedDataIsTrimmed(t: Tables, requester: UserId, sub: Submission)
    requires ValidateSubmission(t, requester, sub).Ok?
    ensures var v := ValidateSubmission(t, requester, sub).value;
      && v == Trimmed(v) && v.name != "" && v.text != ""
      && Accepted(t, requester, v) && Validated(t, requester, v)
  {
    StripIsIdempotent(sub.name);
    StripIsIdempotent(sub.text);
  }

  function ListOrEmpty<T>(o: Option<seq<T>>): seq<T> {
    if o.Some? then o.value else []
  }

  /** The lines `ingredients_create` builds for recipe `id`: one per submitted ingredient, in order. */
  function LinesFor(id: RecipeId, ins: seq<IngredientInput>): (r: seq<IngredientDetail>)
    ensures |r| == |ins|
    ensures forall i :: 0 <= i < |ins| ==> r[i] == IngredientDetail(id, Some(ins[i].ingredient), ins[i].amount)
  {
    seq(|ins|, i requires 0 <= i < |ins| => IngredientDetail(id, Some(ins[i].ingredient), ins[i].amount))
  }

  /** The tag links `tags_create` adds for recipe `id`. */
  function TagLinks(id: RecipeId, tags: seq<TagId>): (r: set<(RecipeId, TagId)>)
    ensures forall p :: p in r <==> p.0 == id && p.1 in tags
  {
    set g | g in tags :: (id, g)
  }

  /** The tags of recipe `id`. */
  function TagsOf(links: set<(RecipeId, TagId)>, id: RecipeId): (r: set<TagId>)
    ensures forall g :: g in r <==> (id, g) in links
  {
    set p | p in links && p.0 == id :: p.1
  }

  function NewRecipe(id: RecipeId, author: UserId, sub: Submission): Recipe {
    Recipe(id, author, sub.name, sub.image, sub.text, sub.cookingTime)
  }

  /** The tables after `create`: the new recipe first in the listing, its lines and links added. */
  function CreateSpec(t: Tables, id: RecipeId, author: UserId, sub: Submission): Tables {
    t.(recipes := [NewRecipe(id, author, sub)] + t.recipes,
       lines := t.lines + LinesFor(id, ListOrEmpty(sub.ingredients)),
       recipeTags := t.recipeTags + TagLinks(id, ListOrEmpty(sub.tags)))
  }

  /** The stored recipe with the submitted scalar fields; the id and the author stay. */
  function Updated(instance: Recipe, sub: Submission): Recipe {
    instance.(name := sub.name, image := sub.image, text := sub.text, cookingTime := sub.cookingTime)
  }

  /** The listing with the row whose id is that of `x` replaced by `x`. */
  function ReplaceRecipe(recipes: seq<Recipe>, x: Recipe): (r: seq<Recipe>)
    ensures |r| == |recipes|
    ensures forall i :: 0 <= i < |recipes| ==> r[i] == (if recipes[i].id == x.id then x else recipes[i])
  {
    seq(|recipes|, i requires 0 <= i < |recipes| => if recipes[i].id == x.id then x else recipes[i])
  }

  /**
   * The tables after `update`: every line and tag link of the recipe is gone (`clear()`), the
   * submitted ones are written in their place (an omitted list writes none), and the recipe row
   * takes the submitted scalar fields.
   */
  function UpdateSpec(t: Tables, instance: Recipe, sub: Submission): Tables {
    t.(recipes := ReplaceRecipe(t.recipes, Updated(instance, sub)),
       lines := OtherLines(t.lines, instance.id) + LinesFor(instance.id, ListOrEmpty(sub.ingredients)),
       recipeTags := OtherTagLinks(t.recipeTags, instance.id) + TagLinks(instance.id, ListOrEmpty(sub.tags)))
  }

  /**
   * What `update` needs to keep the schema's constraints: the lists that were sent passed their
   * checks, the cooking time is at least 1, and no other recipe of the same author has the
   * submitted name and text.
   */
  predicate UpdateAllowed(t: Tables, instance: Recipe, sub: Submission) {
    && (sub.ingredients.Some? ==> IngredientsAccepted(t, sub.ingredients.value))
    && (sub.tags.Some? ==> TagsAccepted(t, sub.tags.value))
    && sub.cookingTime >= MinCookingTime
    && NoClash(t.recipes, instance.author, Some(instance.id), sub.name, sub.text)
  }

  /**
   * An update by the recipe's author that `is_valid` accepts, with the written check or with the
   * intended one, meets what `update` needs.
   */
  lemma ValidatedUpdateIsAllowed(t: Tables, instance: Recipe, sub: Submission)
    ensures ValidateSubmission(t, instance.author, sub).Ok? ==>
      UpdateAllowed(t, instance, ValidateSubmission(t, instance.author, sub).value)
    ensures ValidateSubmissionExcluding(t, instance.author, Some(instance.id), sub).Ok? ==>
      UpdateAllowed(t, instance, ValidateSubmissionExcluding(t, instance.author, Some(instance.id), sub).value)
  {
  }

  /** The new lines of one recipe never share an ingredient when their ids are distinct. */
  lemma LinesForUnique(id: RecipeId, ins: seq<IngredientInput>)
    requires NoDuplicates(IngredientIds(ins))
    ensures LinesUnique(LinesFor(id, ins))
  {
    var ls := LinesFor(id, ins);
    forall i, j | 0 <= i < j < |ls| ensures LineKeysDiffer(ls[i], ls[j]) {
      assert IngredientIds(ins)[i] != IngredientIds(ins)[j];
    }
  }

  /** Lines of stored recipes and the new lines of a recipe with a fresh id never collide. */
  lemma CreateKeepsLinesUnique(lines: seq<IngredientDetail>, ids: set<RecipeId>, id: RecipeId, ins: seq<IngredientInput>)
    requires LinesUnique(lines) && forall l :: l in lines ==> l.recipe in ids
    requires id !in ids
    requires NoDuplicates(IngredientIds(ins))
    ensures LinesUnique(lines + LinesFor(id, ins))
  {
    var added := LinesFor(id, ins);
    LinesForUnique(id, ins);
    forall i, j | 0 <= i < |lines| && 0 <= j < |added| ensures LineKeysDiffer(lines[i], added[j]) {
      assert lines[i] in lines;
    }
    PairwiseConcat(lines, added, LineKeysDiffer);
  }

  /** A new recipe with an id above every stored one keeps the listing order and the key constraint. */
  lemma PrependKeepsOrderAndKeys(recipes: seq<Recipe>, x: Recipe)
    requires ListedByIdDesc(recipes) && RecipeKeysUnique(recipes)
    requires forall i :: i in RecipeIds(recipes) ==> i < x.id
    requires NoClash(recipes, x.author, None, x.name, x.text)
    ensures ListedByIdDesc([x] + recipes) && RecipeKeysUnique([x] + recipes)
    ensures RecipeIds([x] + recipes) == RecipeIds(recipes) + {x.id}
  {
    forall j | 0 <= j < |recipes| ensures IdAbove([x][0], recipes[j]) && KeyDiffers([x][0], recipes[j]) {
      assert recipes[j] in recipes && recipes[j].id in RecipeIds(recipes);
    }
    PairwiseConcat([x], recipes, IdAbove);
    PairwiseConcat([x], recipes, KeyDiffers);
    var n := [x] + recipes;
    assert x in n;
    forall y | y in recipes ensures y in n { assert n[1..] == recipes; }
  }

  /** `create` of an accepted submission with an id above every stored one keeps every constraint. */
  lemma CreateKeepsValid(t: Tables, id: RecipeId, author: UserId, sub: Submission)
    requires Valid(t)
    requires forall i :: i in RecipeIds(t.recipes) ==> i < id
    requires Validated(t, author, sub)
    ensures Valid(CreateSpec(t, id, author, sub))
    ensures RecipeIds(CreateSpec(t, id, author, sub).recipes) == RecipeIds(t.recipes) + {id}
  {
    var n := CreateSpec(t, id, author, sub);
    var ins := sub.ingredients.value;
    var added := LinesFor(id, ins);
    PrependKeepsOrderAndKeys(t.recipes, NewRecipe(id, author, sub));
    CreateKeepsLinesUnique(t.lines, RecipeIds(t.recipes), id, ins);
    forall l | l in n.lines ensures l.amount >= MinAmount && l.recipe in RecipeIds(n.recipes)
      && (l.ingredient.Some? ==> l.ingredient.value in n.ingredients)
    {
      if l !in t.lines {
        var k :| 0 <= k < |added| && added[k] == l;
      }
    }
  }

  /**
   * After `create`: the new recipe heads the listing with the requester as author, its lines are
   * exactly one per submitted ingredient with the submitted amount, its tags are exactly the
   * submitted ones, and no other recipe's lines or tags change.
   */
  lemma {:induction false} CreateContents(t: Tables, id: RecipeId, author: UserId, sub: Submission, other: RecipeId)
    requires id !in RecipeIds(t.recipes) && LinesReferToStored(t) && TagLinksReferToStored(t)
    requires other != id
    ensures CreateSpec(t, id, author, sub).recipes == [NewRecipe(id, author, sub)] + t.recipes
    ensures NewRecipe(id, author, sub).author == author
    ensures LinesOf(CreateSpec(t, id, author, sub).lines, id) == LinesFor(id, ListOrEmpty(sub.ingredients))
    ensures TagsOf(CreateSpec(t, id, author, sub).recipeTags, id) == SetOf(ListOrEmpty(sub.tags))
    ensures LinesOf(CreateSpec(t, id, author, sub).lines, other) == LinesOf(t.lines, other)
    ensures TagsOf(CreateSpec(t, id, author, sub).recipeTags, other) == TagsOf(t.recipeTags, other)
  {
    var added := LinesFor(id, ListOrEmpty(sub.ingredients));
    FilterConcat(t.lines, added, OfRecipe(id));
    FilterConcat(t.lines, added, OfRecipe(other));
    forall l | l in t.lines ensures !OfRecipe(id)(l) {
      assert l.recipe in RecipeIds(t.recipes);
    }
    FilterDropsAll(t.lines, OfRecipe(id));
    FilterKeepsAll(added, OfRecipe(id));
    FilterDropsAll(added, OfRecipe(other));
    assert added + [] == added;
    assert Filter(t.lines, OfRecipe(other)) + [] == Filter(t.lines, OfRecipe(other));
    forall p | p in t.recipeTags ensures p.0 != id {
      assert p.0 in RecipeIds(t.recipes);
    }
  }

  /** Replacing a row by one with the same id keeps the ids, hence the order and the id set. */
  lemma ReplaceRecipeKeepsIds(recipes: seq<Recipe>, x: Recipe)
    requires ListedByIdDesc(recipes)
    ensures ListedByIdDesc(ReplaceRecipe(recipes, x))
    ensures RecipeIds(ReplaceRecipe(recipes, x)) == RecipeIds(recipes)
  {
    var rs := ReplaceRecipe(recipes, x);
    forall i, j | 0 <= i < j < |rs| ensures IdAbove(rs[i], rs[j]) {
      assert IdAbove(recipes[i], recipes[j]);
    }
    forall y | y in recipes ensures y.id in RecipeIds(rs) {
      var k :| 0 <= k < |recipes| && recipes[k] == y;
      assert rs[k] in rs;
    }
    forall y | y in rs ensures y.id in RecipeIds(recipes) {
      var k :| 0 <= k < |rs| && rs[k] == y;
      assert recipes[k] in recipes;
    }
  }

  /** The updated row clashes with no other row when the submitted key is free for its author. */
  lemma ReplaceRecipeKeepsKeysUnique(recipes: seq<Recipe>, instance: Recipe, sub: Submission)
    requires ListedByIdDesc(recipes) && RecipeKeysUnique(recipes)
    requires NoClash(recipes, instance.author, Some(instance.id), sub.name, sub.text)
    ensures RecipeKeysUnique(ReplaceRecipe(recipes, Updated(instance, sub)))
  {
    var rs := ReplaceRecipe(recipes, Updated(instance, sub));
    forall i, j | 0 <= i < j < |rs| ensures KeyDiffers(rs[i], rs[j]) {
      assert IdAbove(recipes[i], recipes[j]) && KeyDiffers(recipes[i], recipes[j]);
      if recipes[i].id == instance.id {
        assert recipes[j] in recipes;
      } else if recipes[j].id == instance.id {
        assert recipes[i] in recipes;
      }
    }
  }

  /** The kept lines of other recipes and the new lines of the updated one never collide. */
  lemma UpdateKeepsLinesUnique(lines: seq<IngredientDetail>, id: RecipeId, ins: seq<IngredientInput>)
    requires LinesUnique(lines)
    requires NoDuplicates(IngredientIds(ins))
    ensures LinesUnique(OtherLines(lines, id) + LinesFor(id, ins))
  {
    var kept := OtherLines(lines, id);
    var added := LinesFor(id, ins);
    FilterPairwise(lines, NotOfRecipe(id), LineKeysDiffer);
    LinesForUnique(id, ins);
    forall i, j | 0 <= i < |kept| && 0 <= j < |added| ensures LineKeysDiffer(kept[i], added[j]) {
      assert kept[i] in kept;
    }
    PairwiseConcat(kept, added, LineKeysDiffer);
  }

  /** `update` of an allowed submission keeps every constraint. */
  lemma UpdateKeepsValid(t: Tables, instance: Recipe, sub: Submission)
    requires Valid(t)
    requires instance in t.recipes
    requires UpdateAllowed(t, instance, sub)
    ensures Valid(UpdateSpec(t, instance, sub))
  {
    var n := UpdateSpec(t, instance, sub);
    var ins := ListOrEmpty(sub.ingredients);
    var added := LinesFor(instance.id, ins);
    ReplaceRecipeKeepsIds(t.recipes, Updated(instance, sub));
    ReplaceRecipeKeepsKeysUnique(t.recipes, instance, sub);
    forall y | y in n.recipes ensures y.cookingTime >= MinCookingTime {
      var k :| 0 <= k < |n.recipes| && n.recipes[k] == y;
      assert t.recipes[k] in t.recipes;
    }
    assert NoDuplicates(IngredientIds(ins)) by {
      if sub.ingredients.None? { assert IngredientIds(ins) == []; }
    }
    UpdateKeepsLinesUnique(t.lines, instance.id, ins);
    assert instance.id in RecipeIds(t.recipes);
    forall l | l in n.lines ensures l.amount >= MinAmount && l.recipe in RecipeIds(n.recipes)
      && (l.ingredient.Some? ==> l.ingredient.value in n.ingredients)
    {
      if l !in OtherLines(t.lines, instance.id) {
        var k :| 0 <= k < |added| && added[k] == l;
      }
    }
  }

  /**
   * After `update`, for the lines: the recipe's lines are exactly the submitted ones (none when
   * the list was omitted), the previous ones are gone, and no other recipe's lines change.
   */
  lemma {:induction false} UpdateLinesContents(lines: seq<IngredientDetail>, id: RecipeId, ins: seq<IngredientInput>, other: RecipeId)
    requires other != id
    ensures LinesOf(OtherLines(lines, id) + LinesFor(id, ins), id) == LinesFor(id, ins)
    ensures LinesOf(OtherLines(lines, id) + LinesFor(id, ins), other) == LinesOf(lines, other)
  {
    var kept := OtherLines(lines, id);
    var added := LinesFor(id, ins);
    FilterConcat(kept, added, OfRecipe(id));
    FilterConcat(kept, added, OfRecipe(other));
    FilterDropsAll(kept, OfRecipe(id));
    FilterKeepsAll(added, OfRecipe(id));
    FilterDropsAll(added, OfRecipe(other));
    FilterFilter(lines, NotOfRecipe(id), OfRecipe(other));
    assert [] + added == added;
    assert Filter(kept, OfRecipe(other)) + [] == Filter(kept, OfRecipe(other));
  }

  /**
   * After `update`: the recipe's lines are exactly the submitted ones and its tags exactly the
   * submitted tags (none when a list was omitted); the previous ones are gone; no other recipe's
   * lines or tags change.
   */
  lemma UpdateContents(t: Tables, instance: Recipe, sub: Submission, other: RecipeId)
    requires other != instance.id
    ensures var n := UpdateSpec(t, instance, sub);
      && LinesOf(n.lines, instance.id) == LinesFor(instance.id, ListOrEmpty(sub.ingredients))
      && TagsOf(n.recipeTags, instance.id) == SetOf(ListOrEmpty(sub.tags))
      && (sub.ingredients.None? ==> LinesOf(n.lines, instance.id) == [])
      && (sub.tags.None? ==> TagsOf(n.recipeTags, instance.id) == {})
      && LinesOf(n.lines, other) == LinesOf(t.lines, other)
      && TagsOf(n.recipeTags, other) == TagsOf(t.recipeTags, other)
  {
    UpdateLinesContents(t.lines, instance.id, ListOrEmpty(sub.ingredients), other);
  }

  /** An update that replaces lines {A: 2, B: 3} by {A: 5} leaves exactly the one line A: 5. */
  lemma UpdateReplacesLines()
    ensures var t := Tables(map[], map[], [Recipe(7, 1, "soup", "img", "hot", 30)],
                            [IngredientDetail(7, Some(10), 2), IngredientDetail(7, Some(11), 3)], {});
            var sub := Submission("soup", "img", "hot", 30, Some([IngredientInput(10, 5)]), None);
            UpdateSpec(t, t.recipes[0], sub).lines == [IngredientDetail(7, Some(10), 5)]
  {
    var lines := [IngredientDetail(7, Some(10), 2), IngredientDetail(7, Some(11), 3)];
    FilterDropsAll(lines, NotOfRecipe(7));
  }

  /**
   * The store the write serializer changes: the rows of the recipe tables and the next primary
   * key the database hands out.
   */
  class RecipeDb {
    var tags: map<TagId, Tag>
    var ingredients: map<IngredientId, Ingredient>
    var recipes: seq<Recipe>
    var lines: seq<IngredientDetail>
    var recipeTags: set<(RecipeId, TagId)>
    var nextId: RecipeId

    function Snapshot(): Tables
      reads this
    {
      Tables(tags, ingredients, recipes, lines, recipeTags)
    }

    /** The schema's constraints hold and every stored id is below the next one. */
    predicate Valid()
      reads this
    {
      RecipesModels.Valid(Snapshot()) && forall id :: id in RecipeIds(recipes) ==> id < nextId
    }

    constructor (tags: map<TagId, Tag>, ingredients: map<IngredientId, Ingredient>)
      requires TagsKeyed(tags) && TagNamesUnique(tags)
      requires IngredientsKeyed(ingredients) && IngredientNamesUnique(ingredients)
      ensures Valid()
      ensures Snapshot() == Tables(tags, ingredients, [], [], {})
    {
      this.tags := tags;
      this.ingredients := ingredients;
      recipes := [];
      lines := [];
      recipeTags := {};
      nextId := 1;
    }

    /** `ingredients_create`: one bulk insert of a line per submitted ingredient. */
    method IngredientsCreate(ins: seq<IngredientInput>, recipe: RecipeId)
      modifies this`lines
      ensures lines == old(lines) + LinesFor(recipe, ins)
    {
      lines := lines + LinesFor(recipe, ins);
    }

    /** `tags_create`: the tags are linked to the recipe one after the other. */
    method TagsCreate(recipe: RecipeId, tgs: seq<TagId>)
      modifies this`recipeTags
      ensures recipeTags == old(recipeTags) + TagLinks(recipe, tgs)
    {
      for i := 0 to |tgs|
        invariant recipeTags == old(recipeTags) + TagLinks(recipe, tgs[..i])
      {
        assert tgs[..i + 1] == tgs[..i] + [tgs[i]];
        recipeTags := recipeTags + {(recipe, tgs[i])};
      }
      assert tgs[..|tgs|] == tgs;
    }

    /** `create`: the recipe row with the requester as author, then its lines, then its tags. */
    method Create(requester: UserId, sub: Submission) returns (recipe: Recipe)
      requires Valid()
      requires Validated(Snapshot(), requester, sub)
      modifies this
      ensures recipe == NewRecipe(old(nextId), requester, sub)
      ensures Snapshot() == CreateSpec(old(Snapshot()), recipe.id, requester, sub)
      ensures nextId == old(nextId) + 1
      ensures Valid()
    {
      CreateKeepsValid(Snapshot(), nextId, requester, sub);
      recipe := NewRecipe(nextId, requester, sub);
      recipes := [recipe] + recipes;
      nextId := nextId + 1;
      IngredientsCreate(sub.ingredients.value, recipe.id);
      TagsCreate(recipe.id, sub.tags.value);
    }

    /**
     * `update`: the recipe's lines and tag links are cleared, the submitted ones written (an
     * omitted list counts as empty), and the row takes the submitted fields.
     */
    method Update(instance: Recipe, sub: Submission) returns (recipe: Recipe)
      requires Valid()
      requires instance in recipes
      requires UpdateAllowed(Snapshot(), instance, sub)
      modifies this
      ensures recipe == Updated(instance, sub)
      ensures Snapshot() == UpdateSpec(old(Snapshot()), instance, sub)
      ensures nextId == old(nextId)
      ensures Valid()
    {
      UpdateKeepsValid(Snapshot(), instance, sub);
      lines := OtherLines(lines, instance.id);
      recipeTags := OtherTagLinks(recipeTags, instance.id);
      IngredientsCreate(ListOrEmpty(sub.ingredients), instance.id);
      TagsCreate(instance.id, ListOrEmpty(sub.tags));
      recipe := Updated(instance, sub);
      ReplaceRecipeKeepsIds(recipes, recipe);
      recipes := ReplaceRecipe(recipes, recipe);
    }
  }

  /**
   * `get_is_favorited` and `get_is_in_shopping_cart`: false for an anonymous requester,
   * otherwise whether the (requester, recipe) pair is in the relation.
   */
  function IsInRelation(p: Principal, pairs: set<(UserId, RecipeId)>, recipe: RecipeId): (r: bool)
    ensures p.Anonymous? ==> !r
    ensures p.Authenticated? ==> (r <==> (p.id, recipe) in pairs)
  {
    p.Authenticated? && (p.id, recipe) in pairs
  }
}
