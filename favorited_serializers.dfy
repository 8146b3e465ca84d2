/**
 * The favorites and shopping-cart serializers. Both keep a table of (user, recipe) pairs that may
 * hold a pair at most once; they differ only in their messages.
 */
module FavoritedSerializers {
  import opened Base
  import RecipeSerializers

  datatype RelationKind = Favorites | ShoppingCart

  /** The reason `create` gives when the pair is already present. */
  function AlreadyIn(kind: RelationKind): Reason {
    if kind == Favorites then AlreadyFavorited else AlreadyInCart
  }

  /** The reason `destroy` gives when the pair is absent. */
  function NotIn(kind: RelationKind): Reason {
    if kind == Favorites then NotFavorited else NotInCart
  }

  /**
   * `validate_and_get_object`: the recipe with primary key `pk`. A missing key or recipe is a
   * validation error on POST and a not-found error on every other method.
   */
  function ValidateAndGetObject(recipes: set<RecipeId>, m: HttpMethod, pk: Option<RecipeId>): (r: Result<RecipeId>)
    ensures r.Ok? <==> pk.Some? && pk.value in recipes
    ensures r.Ok? ==> r.value == pk.value
    ensures r.Err? && m == Post ==> r.error == ValidationError(RecipeDoesNotExist)
    ensures r.Err? && m != Post ==> r.error == NotFound(RecipeDoesNotExist)
  {
    if pk.Some? && pk.value in recipes then Ok(pk.value)
    else if m == Post then Err(ValidationError(RecipeDoesNotExist))
    else Err(NotFound(RecipeDoesNotExist))
  }

  type Pairs = set<(UserId, RecipeId)>

  /**
   * `create`: look the recipe up, then insert the pair; the table's unique (user, recipe)
   * constraint turns a second insert into "already there".
   */
  function CreateStep(kind: RelationKind, pairs: Pairs, recipes: set<RecipeId>, m: HttpMethod,
                      user: UserId, pk: Option<RecipeId>): (r: Step<Pairs>)
    ensures r.outcome.Pass? <==> pk.Some? && pk.value in recipes && (user, pk.value) !in pairs
    ensures r.outcome.Pass? ==> r.state == pairs + {(user, pk.value)}
    ensures r.outcome.Fail? ==> r.state == pairs
    ensures pk.Some? && pk.value in recipes && (user, pk.value) in pairs ==>
      r.outcome == Fail(ValidationError(AlreadyIn(kind)))
    ensures !(pk.Some? && pk.value in recipes) ==>
      r.outcome == Fail(ValidateAndGetObject(recipes, m, pk).error)
  {
    match ValidateAndGetObject(recipes, m, pk)
    case Err(e) => Step(Fail(e), pairs)
    case Ok(recipe) =>
      if (user, recipe) in pairs then Step(Fail(ValidationError(AlreadyIn(kind))), pairs)
      else Step(Pass, pairs + {(user, recipe)})
  }

  /** `destroy`: look the recipe up, then delete the pair; an absent pair is a validation error. */
  function DestroyStep(kind: RelationKind, pairs: Pairs, recipes: set<RecipeId>, m: HttpMethod,
                       user: UserId, pk: Option<RecipeId>): (r: Step<Pairs>)
    ensures r.outcome.Pass? <==> pk.Some? && pk.value in recipes && (user, pk.value) in pairs
    ensures r.outcome.Pass? ==> r.state == pairs - {(user, pk.value)}
    ensures r.outcome.Fail? ==> r.state == pairs
    ensures pk.Some? && pk.value in recipes && (user, pk.value) !in pairs ==>
      r.outcome == Fail(ValidationError(NotIn(kind)))
    ensures !(pk.Some? && pk.value in recipes) ==>
      r.outcome == Fail(ValidateAndGetObject(recipes, m, pk).error)
  {
    match ValidateAndGetObject(recipes, m, pk)
    case Err(e) => Step(Fail(e), pairs)
    case Ok(recipe) =>
      if (user, recipe) in pairs then Step(Pass, pairs - {(user, recipe)})
      else Step(Fail(ValidationError(NotIn(kind))), pairs)
  }

  /** A successful `create` followed by `destroy` of the same pair restores the table. */
  lemma CreateThenDestroyRestores(kind: RelationKind, pairs: Pairs, recipes: set<RecipeId>, m: HttpMethod,
                                  m': HttpMethod, user: UserId, pk: Option<RecipeId>)
    requires CreateStep(kind, pairs, recipes, m, user, pk).outcome.Pass?
    ensures DestroyStep(kind, CreateStep(kind, pairs, recipes, m, user, pk).state, recipes, m', user, pk)
      == Step(Pass, pairs)
  {
    var s := CreateStep(kind, pairs, recipes, m, user, pk).state;
    assert s - {(user, pk.value)} == pairs;
  }

  /** A second `create` of the same pair fails with "already there" and changes nothing. */
  lemma CreateTwiceFails(kind: RelationKind, pairs: Pairs, recipes: set<RecipeId>, m: HttpMethod,
                         user: UserId, pk: Option<RecipeId>)
    requires CreateStep(kind, pairs, recipes, m, user, pk).outcome.Pass?
    ensures var s := CreateStep(kind, pairs, recipes, m, user, pk).state;
      CreateStep(kind, s, recipes, m, user, pk) == Step(Fail(ValidationError(AlreadyIn(kind))), s)
  {
  }

  /** After a successful `create` the read serializer's flag is set; after `destroy` it is clear. */
  lemma FlagFollowsMembership(kind: RelationKind, pairs: Pairs, recipes: set<RecipeId>, m: HttpMethod,
                              user: UserId, isSuperuser: bool, pk: Option<RecipeId>)
    requires pk.Some? && pk.value in recipes
    ensures RecipeSerializers.IsInRelation(Authenticated(user, isSuperuser),
                                           CreateStep(kind, pairs, recipes, m, user, pk).state, pk.value)
    ensures !RecipeSerializers.IsInRelation(Authenticated(user, isSuperuser),
                                            DestroyStep(kind, pairs, recipes, m, user, pk).state, pk.value)
    ensures !RecipeSerializers.IsInRelation(Anonymous, CreateStep(kind, pairs, recipes, m, user, pk).state, pk.value)
  {
  }

  /** One of the two tables: favorites or the shopping cart. */
  class MembershipTable {
    const kind: RelationKind
    var pairs: Pairs

    constructor (kind: RelationKind, pairs: Pairs)
      ensures this.kind == kind && this.pairs == pairs
    {
      this.kind := kind;
      this.pairs := pairs;
    }

    /** `create` for `user` and the recipe `pk` names; the table changes only on success. */
    method Create(recipes: set<RecipeId>, m: HttpMethod, user: UserId, pk: Option<RecipeId>) returns (r: Outcome)
      modifies this
      ensures Step(r, pairs) == CreateStep(kind, old(pairs), recipes, m, user, pk)
    {
      var found := ValidateAndGetObject(recipes, m, pk);
      if found.Err? {
        return Fail(found.error);
      }
      if (user, found.value) in pairs {
        return Fail(ValidationError(AlreadyIn(kind)));
      }
      pairs := pairs + {(user, found.value)};
      r := Pass;
    }

    /** `destroy` for `user` and the recipe `pk` names; the table changes only on success. */
    method Destroy(recipes: set<RecipeId>, m: HttpMethod, user: UserId, pk: Option<RecipeId>) returns (r: Outcome)
      modifies this
      ensures Step(r, pairs) == DestroyStep(kind, old(pairs), recipes, m, user, pk)
    {
      var found := ValidateAndGetObject(recipes, m, pk);
      if found.Err? {
        return Fail(found.error);
      }
      if (user, found.value) !in pairs {
        return Fail(ValidationError(NotIn(kind)));
      }
      pairs := pairs - {(user, found.value)};
      r := Pass;
    }
  }
}
