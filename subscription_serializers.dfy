/**
 * The subscription serializer: subscribing to and unsubscribing from an author, and the list of
 * that author's recipes it shows, cut to the requested length.
 */
module SubscriptionSerializers {
  import opened Base
  import opened Collections
  import opened RecipesModels
  import opened UsersModels
  import UserSerializers

  /** `validate_user_following_add`: the self check comes first, then the duplicate check. */
  function ValidateUserFollowingAdd(follows: Follows, user: UserId, following: UserId): (r: Outcome)
    ensures r.Pass? <==> user != following && following !in Subscriptions(follows, user)
    ensures user == following ==> r == Fail(ValidationError(SelfSubscription))
    ensures user != following && following in Subscriptions(follows, user) ==>
      r == Fail(ValidationError(AlreadySubscribed))
  {
    if following == user then Fail(ValidationError(SelfSubscription))
    else if following in Subscriptions(follows, user) then Fail(ValidationError(AlreadySubscribed))
    else Pass
  }

  /** `validate_user_following_remove`: only an existing subscription can be removed. */
  function ValidateUserFollowingRemove(follows: Follows, user: UserId, following: UserId): (r: Outcome)
    ensures r.Pass? <==> following in Subscriptions(follows, user)
    ensures r.Fail? ==> r.error == ValidationError(NotSubscribed)
  {
    if following !in Subscriptions(follows, user) then Fail(ValidationError(NotSubscribed)) else Pass
  }

  /** `save`: validate, then add `following` to the requester's subscriptions. */
  function SaveStep(follows: Follows, user: UserId, following: UserId): (r: Step<Follows>)
    ensures r.outcome == ValidateUserFollowingAdd(follows, user, following)
    ensures r.outcome.Pass? ==> r.state == follows + {(user, following)}
    ensures r.outcome.Fail? ==> r.state == follows
  {
    var v := ValidateUserFollowingAdd(follows, user, following);
    Step(v, if v.Pass? then follows + {(user, following)} else follows)
  }

  /** `destroy`: validate, then remove `following` from the requester's subscriptions. */
  function DestroyStep(follows: Follows, user: UserId, following: UserId): (r: Step<Follows>)
    ensures r.outcome == ValidateUserFollowingRemove(follows, user, following)
    ensures r.outcome.Pass? ==> r.state == follows - {(user, following)}
    ensures r.outcome.Fail? ==> r.state == follows
  {
    var v := ValidateUserFollowingRemove(follows, user, following);
    Step(v, if v.Pass? then follows - {(user, following)} else follows)
  }

  /**
   * A successful `save` makes exactly `following` a new subscription of the requester, leaves
   * every other user's subscriptions (the followed user's own included) as they were, and keeps
   * the relation free of self-subscriptions.
   */
  lemma SaveChangesOnlyRequester(follows: Follows, user: UserId, following: UserId, other: UserId)
    requires SaveStep(follows, user, following).outcome.Pass?
    requires other != user
    ensures Subscriptions(SaveStep(follows, user, following).state, user) == Subscriptions(follows, user) + {following}
    ensures Subscriptions(SaveStep(follows, user, following).state, other) == Subscriptions(follows, other)
    ensures (forall w :: (w, w) !in follows) ==> forall w :: (w, w) !in SaveStep(follows, user, following).state
  {
    FollowIsNotSymmetric(follows, user, following);
    var s := SaveStep(follows, user, following).state;
    assert Subscriptions(s, other) == Subscriptions(follows, other) by {
      forall v ensures v in Subscriptions(s, other) <==> v in Subscriptions(follows, other) {
        assert (other, v) in s <==> (other, v) in follows;
      }
    }
  }

  /** A successful `destroy` removes exactly `following` from the requester's subscriptions. */
  lemma DestroyChangesOnlyRequester(follows: Follows, user: UserId, following: UserId, other: UserId)
    requires DestroyStep(follows, user, following).outcome.Pass?
    requires other != user
    ensures Subscriptions(DestroyStep(follows, user, following).state, user) == Subscriptions(follows, user) - {following}
    ensures Subscriptions(DestroyStep(follows, user, following).state, other) == Subscriptions(follows, other)
  {
    var s := DestroyStep(follows, user, following).state;
    assert Subscriptions(s, other) == Subscriptions(follows, other) by {
      forall v ensures v in Subscriptions(s, other) <==> v in Subscriptions(follows, other) {
        assert (other, v) in s <==> (other, v) in follows;
      }
    }
  }

  /**
   * A user who is neither the requester nor the author keeps their subscriptions and their
   * subscribers through `save` and `destroy`, whatever the outcome.
   */
  lemma UninvolvedUserUnchanged(follows: Follows, user: UserId, following: UserId, w: UserId)
    requires w != user && w != following
    ensures Subscriptions(SaveStep(follows, user, following).state, w) == Subscriptions(follows, w)
    ensures Subscribers(SaveStep(follows, user, following).state, w) == Subscribers(follows, w)
    ensures Subscriptions(DestroyStep(follows, user, following).state, w) == Subscriptions(follows, w)
    ensures Subscribers(DestroyStep(follows, user, following).state, w) == Subscribers(follows, w)
  {
    var s := SaveStep(follows, user, following).state;
    var d := DestroyStep(follows, user, following).state;
    forall v ensures ((w, v) in s <==> (w, v) in follows) && ((v, w) in s <==> (v, w) in follows)
      && ((w, v) in d <==> (w, v) in follows) && ((v, w) in d <==> (v, w) in follows)
    {
    }
    assert Subscriptions(s, w) == Subscriptions(follows, w);
    assert Subscribers(s, w) == Subscribers(follows, w);
    assert Subscriptions(d, w) == Subscriptions(follows, w);
    assert Subscribers(d, w) == Subscribers(follows, w);
  }

  /** Subscribing and then unsubscribing restores the relation; subscribing twice fails the second time. */
  lemma SaveThenDestroyRestores(follows: Follows, user: UserId, following: UserId)
    requires SaveStep(follows, user, following).outcome.Pass?
    ensures DestroyStep(SaveStep(follows, user, following).state, user, following) == Step(Pass, follows)
    ensures SaveStep(SaveStep(follows, user, following).state, user, following).outcome
      == Fail(ValidationError(AlreadySubscribed))
  {
    var s := SaveStep(follows, user, following).state;
    assert (user, following) in s;
    assert s - {(user, following)} == follows;
  }

  /** The intended `is_subscribed` flag is set by a successful `save` and cleared by a successful `destroy`. */
  lemma SubscribedFlagFollowsSteps(follows: Follows, user: UserId, isSuperuser: bool, following: UserId)
    ensures SaveStep(follows, user, following).outcome.Pass? ==>
      UserSerializers.IsSubscribed(Authenticated(user, isSuperuser), SaveStep(follows, user, following).state, following)
    ensures !UserSerializers.IsSubscribed(Authenticated(user, isSuperuser), DestroyStep(follows, user, following).state, following)
  {
  }

  /** The relation the serializer changes: every (follower, followed) row. */
  class FollowGraph {
    var follows: Follows

    constructor (follows: Follows)
      ensures this.follows == follows
    {
      this.follows := follows;
    }

    /** `save` for the requester `user` and the author `following`. */
    method Save(user: UserId, following: UserId) returns (r: Outcome)
      modifies this
      ensures Step(r, follows) == SaveStep(old(follows), user, following)
    {
      r := ValidateUserFollowingAdd(follows, user, following);
      if r.Pass? {
        follows := follows + {(user, following)};
      }
    }

    /** `destroy` for the requester `user` and the author `following`. */
    method Destroy(user: UserId, following: UserId) returns (r: Outcome)
      modifies this
      ensures Step(r, follows) == DestroyStep(old(follows), user, following)
    {
      r := ValidateUserFollowingRemove(follows, user, following);
      if r.Pass? {
        follows := follows - {(user, following)};
      }
    }
  }

  /** The short form of a recipe shown in a subscription. */
  datatype ShortRecipe = ShortRecipe(id: RecipeId, name: string, image: string, cookingTime: int)

  function Short(x: Recipe): ShortRecipe {
    ShortRecipe(x.id, x.name, x.image, x.cookingTime)
  }

  /**
   * The recipes a subscription shows for author `obj`: their recipes in listing order, in short
   * form, cut to the first `limit` when a non-empty limit was requested.
   */
  function RecipesShown(recipes: seq<Recipe>, obj: UserId, limit: Option<nat>): (r: seq<ShortRecipe>)
    ensures var mine := Filter(recipes, ByAuthor(obj));
      && |r| == (if limit.Some? && limit.value < |mine| then limit.value else |mine|)
      && forall i :: 0 <= i < |r| ==> r[i] == Short(mine[i])
    ensures forall s :: s in r ==> exists x :: x in recipes && x.author == obj && Short(x) == s
  {
    var mine := Filter(recipes, ByAuthor(obj));
    var all := seq(|mine|, i requires 0 <= i < |mine| => Short(mine[i]));
    var r := if limit.Some? then Take(all, limit.value) else all;
    assert forall s :: s in r ==> exists x :: x in recipes && x.author == obj && Short(x) == s by {
      forall s | s in r ensures exists x :: x in recipes && x.author == obj && Short(x) == s {
        var i :| 0 <= i < |r| && r[i] == s;
        assert mine[i] in mine;
      }
    }
    r
  }

  /**
   * `get_recipes`: the author's recipes are appended to a list one by one, and the list is then
   * cut when `recipes_limit` was given and is non-empty (a limit of 0 gives the empty list).
   */
  method GetRecipes(recipes: seq<Recipe>, obj: UserId, limit: Option<nat>) returns (all: seq<ShortRecipe>)
    ensures all == RecipesShown(recipes, obj, limit)
  {
    var mine := Filter(recipes, ByAuthor(obj));
    all := [];
    for i := 0 to |mine|
      invariant |all| == i
      invariant forall j :: 0 <= j < i ==> all[j] == Short(mine[j])
    {
      all := all + [Short(mine[i])];
    }
    if limit.Some? {
      all := all[..if limit.value < |all| then limit.value else |all|];
    }
  }

  /** `get_recipes_count`: the length of the list `get_recipes` shows, so a limit caps it. */
  method GetRecipesCount(recipes: seq<Recipe>, obj: UserId, limit: Option<nat>) returns (n: nat)
    ensures n == |RecipesShown(recipes, obj, limit)|
    ensures limit.Some? ==> n <= limit.value
    ensures n <= |Filter(recipes, ByAuthor(obj))|
  {
    var shown := GetRecipes(recipes, obj, limit);
    n := |shown|;
  }

  /** With two recipes by the author and a limit of 1, the count is 1, not the author's total of 2. */
  lemma CountIsOfTruncatedList()
    ensures var recipes := [Recipe(2, 5, "b", "", "t", 1), Recipe(1, 5, "a", "", "t", 1)];
      && |Filter(recipes, ByAuthor(5))| == 2
      && |RecipesShown(recipes, 5, Some(1))| == 1
  {
    var recipes := [Recipe(2, 5, "b", "", "t", 1), Recipe(1, 5, "a", "", "t", 1)];
    FilterKeepsAll(recipes, ByAuthor(5));
  }
}
