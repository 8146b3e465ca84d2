/** Identifiers, error kinds and result types shared by every part of the model. */
module Base {

  type UserId = nat
  type RecipeId = nat
  type IngredientId = nat
  type TagId = nat

  datatype Option<T> = None | Some(value: T)

  /** One reason per message the core raises. */
  datatype Reason =
    | ReservedUsername       // "me" may not be used as a username
    | DuplicateRecipe        // a recipe with this name, text and author exists
    | NoIngredients          // the ingredient list is empty
    | RepeatedIngredients    // an ingredient occurs twice in one submission
    | CookingTimeTooShort    // cooking time below one minute
    | NoTags                 // the tag list is empty
    | RepeatedTags           // a tag occurs twice in one submission
    | InvalidField           // a field check of the serializer framework failed
    | RecipeDoesNotExist     // the recipe named by the request is not stored
    | AlreadyFavorited       // the recipe is already in the favorites
    | NotFavorited           // the recipe is not in the favorites
    | AlreadyInCart          // the recipe is already in the shopping list
    | NotInCart              // the recipe is not in the shopping list
    | SelfSubscription       // a user may not subscribe to themselves
    | AlreadySubscribed      // the subscription exists already
    | NotSubscribed          // the subscription does not exist

  /** The two error kinds the core distinguishes: a client error (400) and a missing resource (404). */
  datatype Error = ValidationError(reason: Reason) | NotFound(reason: Reason)

  datatype Result<T> = Ok(value: T) | Err(error: Error)

  datatype Outcome = Pass | Fail(error: Error)

  /** The outcome of an operation on a piece of state together with the state it leaves behind. */
  datatype Step<S> = Step(outcome: Outcome, state: S)

  datatype HttpMethod = Get | Head | Options | Post | Put | Patch | Delete

  /** The requester: anonymous, or an authenticated user with the superuser flag. */
  datatype Principal = Anonymous | Authenticated(id: UserId, isSuperuser: bool)
}
