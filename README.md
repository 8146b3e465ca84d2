# foodgram recipe backend — a Dafny model of its business rules

This project models the rules underneath the foodgram REST backend, with the relational store
replaced by in-memory values. Records are datatypes. The recipe listing and the ingredient lines
are sequences, the many-to-many tables are sets of pairs, and queries are filters and folds.
The project then proves properties of that model.

The modules follow the repository's files:

- `Base`: ids, `Option`/`Result`, the two error kinds (a validation error, which the HTTP
  layer renders as 400, and not-found, rendered as 404), one reason code per message, HTTP
  methods and the requester.
- `Collections`: filter, distinct, `set()`, slicing.
- `RecipesModels` (`recipes/models.py`): the tables and the schema's constraints. Deleting a
  recipe cascades to its lines and tags; deleting an ingredient sets the ingredient of its lines
  to NULL.
- `UsersModels` (`users/models.py`): the reserved username, the unique e-mail address and the
  directed subscription relation.
- `RecipeSerializers` (`api/recipes/serializers.py`): submission checks. The class `RecipeDb`
  holds the store that `create` and `update` change. Also the `is_favorited` /
  `is_in_shopping_cart` flags.
- `RecipeViews` (`api/recipes/views.py`): the shopping-list aggregation and the rows of the
  downloaded file.
- `FavoritedSerializers` (`api/favorited/serializers.py`): the favorites and cart tables as
  one class `MembershipTable` with a `kind`.
- `SubscriptionSerializers` (`api/subscriptions/serializers.py`): subscribe and unsubscribe on
  the class `FollowGraph`, and the author's recipe list with its limit.
- `Filters` (`api/filters.py`): the recipe and ingredient filters.
- `Text`: the trimming of white space that character fields apply to the values they clean (Python's `str.strip()`), used by the filters and by the recipe serializer.
- `Permissions` (`api/permissions.py`): the recipe object permission and the guard on `me`.
- `UserSerializers` (`api/users/serializers.py`): the username check and the `is_subscribed`
  flag.

The state-changing operations are methods of classes. For `RecipeDb.Create`/`Update`,
`MembershipTable.Create`/`Destroy` and `FollowGraph.Save`/`Destroy`, each method's `ensures`
ties the new state to a pure function of the old state (`CreateSpec`, `UpdateSpec`,
`CreateStep`, `DestroyStep`, `SaveStep`). The lemmas then prove the source's promises about
those functions.

Three behaviours of the code are easy to get wrong, and the model follows the code in each:

- Removing an absent favorite, cart entry or subscription is a validation error, not a
  not-found error.
- Subscribing to oneself is a validation error with its own reason, not a separate error kind.
- No `is_favorited` / `is_in_shopping_cart` filter exists in `api/filters.py`, so none is
  modelled.

Where the code has a defect, `ValidateSubmission` and the other as-written members keep it, and a
corrected member stands beside them (see "## Findings").

## Model

| member | source | states |
|---|---|---|
| RecipesModels.DeleteRecipe | backend/recipes/models.py:57-62 | deleting a recipe removes it, every line whose recipe it is (CASCADE) and its tag links; ingredients and tags stay |
| RecipesModels.DeleteRecipeCascades | backend/recipes/models.py:57-62 | after deleting recipe `id` no line of `id` is left, and the lines of every other recipe are the same ones in the same order |
| RecipesModels.DeleteRecipeKeepsValid | backend/recipes/models.py:57-62 | deleting a recipe keeps every schema constraint, among them (recipe, ingredient) uniqueness, amounts >= 1, the (name, author, text) uniqueness and the descending-id listing |
| RecipesModels.DeleteIngredient | backend/recipes/models.py:63-68 | the ingredient table loses exactly that ingredient; every line stays, with its recipe and amount; a line that named it now names NULL (SET_NULL) and the other lines are unchanged; recipes, tags and links are untouched |
| RecipesModels.DeleteIngredientKeepsValid | backend/recipes/models.py:63-75 | the NULLed lines still meet the constraints; a NULL ingredient never collides under the (recipe, ingredient) unique constraint |
| UsersModels.Clean | backend/users/models.py:40-45 | refused iff the username is exactly "me", with the reserved-username validation error; every other username passes |
| UsersModels.CleanIsCaseSensitive | backend/users/models.py:42 | "me" is refused while "Me", "mE" and "ME" pass the model check |
| UsersModels.InsertUser | backend/users/models.py:8-23 | an insert is refused iff the id, the username (unique in `AbstractUser`) or the e-mail address is taken; otherwise exactly the new user is added and every other row stays |
| UsersModels.InsertUserRefusesTakenUsername | backend/users/models.py:8 | a second "alice" is refused although its e-mail address is new |
| UsersModels.InsertUserKeepsEmailsUnique | backend/users/models.py:8-23 | an accepted insert keeps the table keyed by id and keeps usernames and e-mail addresses unique |
| UsersModels.Subscriptions | backend/users/models.py:24-30 | `v` is a subscription of `u` iff the row (u, v) exists |
| UsersModels.Subscribers | backend/users/models.py:24-30 | the reverse accessor: `w` follows `u` iff the row (w, u) exists |
| UsersModels.FollowIsNotSymmetric | backend/users/models.py:24-30 | adding a -> b makes b a subscription of a and leaves b's subscriptions unchanged (symmetrical=False) |
| Permissions.HasObjectPermission | backend/api/permissions.py:5-10 | the truth table: safe methods always allowed; otherwise anonymous denied, superuser or author allowed, anyone else denied |
| Permissions.HasPermission | backend/api/permissions.py:15-18 | an anonymous request for the `me` action is denied before anything else; otherwise the inherited verdict stands |
| UserSerializers.LowerIsReserved | backend/api/users/serializers.py:30 | a username lower-cases to "me" iff it is one of "me", "Me", "mE", "ME" |
| UserSerializers.ValidateUsername | backend/api/users/serializers.py:29-34 | refused iff the username is "me" in any letter case; any other username is returned unchanged |
| UserSerializers.ValidateUsernameIsStricterThanClean | backend/api/users/serializers.py:29-34 | every username registration accepts also passes the model check, and "Me" is accepted by the model check but refused at registration |
| UserSerializers.IsSubscribedAsWritten | backend/api/users/serializers.py:22-25 | the flag as the query is written: false for anonymous; otherwise true iff requester and `obj` both follow some common user |
| UserSerializers.IsSubscribed | backend/api/users/serializers.py:22-25 | the flag as intended: false for anonymous; otherwise true iff `obj` is among the requester's subscriptions |
| UserSerializers.IsSubscribedAsWrittenDisagrees | backend/api/users/serializers.py:25 | with the row (1, 2) alone the written query says user 1 is not subscribed to 2; with (1, 3), (2, 3) it says they are |
| Collections.SetSizeIsLengthIffNoDuplicates | backend/api/recipes/serializers.py:111-112 | `len(set(s)) == len(s)` holds exactly when no element of `s` repeats |
| Filters.FilterByTags | backend/api/filters.py:10-12 | keeps a recipe iff some slug of its tags is among all the `tags` values, no recipe twice, a subset of the input |
| Filters.FilterByAuthor | backend/api/filters.py:8 | keeps exactly the recipes whose author is the given id |
| Text.Strip | backend/api/filters.py:7 | the cleaning a character field applies: the value is cut to the slice after its leading white space, with only white space before and after it; that slice is empty iff the value is all white space, and otherwise starts and ends with a non-space |
| Text.StripKeepsClean | backend/api/filters.py:7 | a value without white space at its ends is its own cleaning |
| Text.StripIsIdempotent | backend/api/filters.py:7 | cleaning twice is cleaning once |
| Filters.FilterRecipes | backend/api/filters.py:6-16 | a recipe is kept iff it is in the input and passes every filter that applies; tags applies when its bound value is non-empty once cleaned, and then matches the raw `getlist` values; author applies when given |
| Filters.BlankTagsValueFiltersNothing | backend/api/filters.py:7-12 | `?tags=%20` cleans to empty, so the tags filter is skipped and every recipe stays |
| Filters.FilterRecipesKeepsOrder | backend/api/filters.py:12 | filtering a listing in descending-id order keeps that order, so the result has no duplicates |
| Filters.FilterByName | backend/api/filters.py:22-24 | keeps exactly the ingredients whose name starts with the value, each once |
| Filters.FilterIngredients | backend/api/filters.py:19-28 | the name is cleaned first; a value of white space only filters nothing; otherwise exactly the ingredients starting with the cleaned value |
| RecipeSerializers.ValidateIngredients | backend/api/recipes/serializers.py:106-117 | an empty list is refused; a non-empty one is accepted iff its ingredient ids are pairwise distinct, and returned unchanged |
| RecipeSerializers.ValidateCookingTime | backend/api/recipes/serializers.py:119-124 | refused iff below 1 minute; otherwise returned unchanged |
| RecipeSerializers.ValidateTags | backend/api/recipes/serializers.py:126-136 | an empty list or one with a repeated tag is refused; otherwise returned unchanged |
| RecipeSerializers.Validate | backend/api/recipes/serializers.py:93-104 | as written: refused iff some stored recipe has the submitted name and text and the requester as author, the updated recipe included |
| RecipeSerializers.ValidateExcluding | backend/api/recipes/serializers.py:93-104 | as intended: refused iff a stored recipe other than the one being updated has that name, text and author |
| RecipeSerializers.ValidateExcludingAgreesOnCreate | backend/api/recipes/serializers.py:93-104 | without an instance (create) the intended check is the written one |
| RecipeSerializers.ValidateRefusesUnchangedResubmission | backend/api/recipes/serializers.py:93-104 | resubmitting a stored recipe with name and text unchanged is refused by the written check and accepted by the intended one |
| RecipeSerializers.ValidateFields | backend/api/recipes/serializers.py:81-136 | the field stage passes iff both lists were sent and are valid (ids stored, amounts >= 1, no repeats, tags non-empty), name and text are non-blank once trimmed and the cooking time is >= 1; its errors are validation errors other than the duplicate one |
| RecipeSerializers.ValidateSubmission | backend/api/recipes/serializers.py:81-136 | `is_valid` as written, on create and update: accepted iff every field passes and no stored recipe of the requester, the updated one included, has the trimmed name and text; the validated data is the submission with name and text trimmed; the duplicate error is reported exactly when all fields passed; all errors are validation errors |
| RecipeSerializers.ValidateSubmissionExcluding | backend/api/recipes/serializers.py:93-104 | `is_valid` with the intended duplicate check: accepted iff every field passes and no recipe other than the one being updated clashes |
| RecipeSerializers.WrittenCheckIsStricter | backend/api/recipes/serializers.py:93-104 | what the written check accepts the intended one accepts, for any instance; without an instance the two give the same result |
| RecipeSerializers.UpdateKeepingNameAndTextIsRefused | backend/api/mixins.py:25-30 | an update of a stored recipe by its author that keeps its name and text, up to white space at their ends, is refused by `is_valid` as written |
| RecipeSerializers.BlankNameIsRefused | backend/api/recipes/serializers.py:81-92 | a name of white space only is refused as blank, not as a duplicate |
| RecipeSerializers.ValidatedDataIsTrimmed | backend/api/recipes/serializers.py:81-104 | the data `is_valid` passes on is trimmed, non-blank, accepted in its own right, and meets what `create` requires |
| RecipeSerializers.ValidatedUpdateIsAllowed | backend/api/mixins.py:25-31 | the validated data of an update by the author that `is_valid` accepts, as written or as intended, meets the precondition of `RecipeDb.Update` |
| RecipeSerializers.LinesFor | backend/api/recipes/serializers.py:146-153 | one line per submitted ingredient, in order, carrying the recipe, the ingredient and the submitted amount |
| RecipeSerializers.TagLinks | backend/api/recipes/serializers.py:155-157 | a link (recipe, tag) exists for exactly the submitted tags |
| RecipeSerializers.LinesForUnique | backend/api/recipes/serializers.py:146-153 | distinct submitted ingredient ids give lines that meet the (recipe, ingredient) unique constraint |
| RecipeSerializers.CreateKeepsValid | backend/api/recipes/serializers.py:159-170 | creating the validated data of an accepted submission under a fresh id keeps every schema constraint and adds exactly that id to the stored ids |
| RecipeSerializers.PrependKeepsOrderAndKeys | backend/api/recipes/serializers.py:159-162 | a new recipe with an id above every stored one, clashing with none, keeps the newest-first listing and the unique (name, text, author) key |
| RecipeSerializers.CreateKeepsLinesUnique | backend/api/recipes/serializers.py:146-153 | the lines written for a fresh recipe, without repeated ingredients, never repeat a stored (recipe, ingredient) pair |
| RecipeSerializers.CreateContents | backend/api/recipes/serializers.py:159-170 | after create the new recipe heads the listing with the requester as author, its lines are exactly the submitted ones, its tags exactly the submitted tags, and other recipes' lines and tags are unchanged |
| RecipeSerializers.ReplaceRecipe | backend/api/recipes/serializers.py:181 | the saved row replaces the stored row with its id; every other row stays |
| RecipeSerializers.ReplaceRecipeKeepsIds | backend/api/recipes/serializers.py:181 | saving the row keeps the ids, so the descending-id listing and the set of ids |
| RecipeSerializers.ReplaceRecipeKeepsKeysUnique | backend/api/recipes/serializers.py:181 | the saved row keeps (name, author, text) unique when no other recipe of its author has the new name and text |
| RecipeSerializers.UpdateKeepsLinesUnique | backend/api/recipes/serializers.py:175-178 | the lines left after clearing and the recreated lines keep (recipe, ingredient) unique |
| RecipeSerializers.UpdateKeepsValid | backend/api/recipes/serializers.py:172-182 | an allowed update keeps every schema constraint |
| RecipeSerializers.UpdateLinesContents | backend/api/recipes/serializers.py:175-178 | after clearing and recreating, the recipe's lines are exactly the new ones and every other recipe's lines are unchanged, in order |
| RecipeSerializers.UpdateContents | backend/api/recipes/serializers.py:172-182 | after update the recipe's lines and tags are exactly the submitted ones (none for an omitted list), the previous ones are gone, other recipes are unchanged |
| RecipeSerializers.UpdateReplacesLines | backend/api/recipes/serializers.py:172-182 | replacing lines {A: 2, B: 3} by {A: 5} leaves the single line A: 5 |
| RecipeSerializers.RecipeDb.IngredientsCreate | backend/api/recipes/serializers.py:146-153 | the store's lines gain exactly the submitted lines at the end; nothing else changes |
| RecipeSerializers.RecipeDb.TagsCreate | backend/api/recipes/serializers.py:155-157 | adding the tags one by one leaves the links as before plus exactly the submitted ones |
| RecipeSerializers.RecipeDb.Create | backend/api/recipes/serializers.py:159-170 | the store becomes the create of the validated data under the next id, authored by the requester, and stays valid |
| RecipeSerializers.RecipeDb.Update | backend/api/recipes/serializers.py:172-182 | the store becomes the clear-then-recreate update of the submission, the id counter stays, and the store stays valid |
| RecipeSerializers.IsInRelation | backend/api/recipes/serializers.py:51-67 | `is_favorited` / `is_in_shopping_cart`: false for anonymous, otherwise true iff the (requester, recipe) pair is stored |
| RecipeViews.CartRecipes | backend/api/recipes/views.py:130-132 | exactly the recipes in the requester's cart |
| RecipeViews.AddAmountKeys | backend/api/recipes/views.py:133-137 | one grouping step: its key has a row afterwards, and any other key has a row afterwards exactly when it had one before |
| RecipeViews.AddAmountKeepsKeysDistinct | backend/api/recipes/views.py:133-137 | the grouping step never creates a second row for a key |
| RecipeViews.AddAmountTotals | backend/api/recipes/views.py:136-137 | the grouping step raises the total of its key by the amount and leaves every other total alone |
| RecipeViews.AddAmountKeepsPositive | backend/api/recipes/views.py:137 | adding a positive amount keeps every total positive |
| RecipeViews.Group | backend/api/recipes/views.py:133-137 | one row per key some counted line has, none twice, each total equal to the sum of the amounts of the counted lines with that key, all >= 1 when amounts are >= 1 |
| RecipeViews.ShoppingListIngredients | backend/api/recipes/views.py:129-143 | the same for the lines of the requester's cart recipes |
| RecipeViews.EmptyCartGivesEmptyList | backend/api/recipes/views.py:130-143 | an empty cart gives an empty list |
| RecipeViews.SharedIngredientIsMerged | backend/api/recipes/views.py:133-137 | 10 g and 15 g of salt in two cart recipes give the one row ("Salt", 25, "g") |
| RecipeViews.OnlyCartLinesCount | backend/api/recipes/views.py:130-134 | removing every line outside the cart leaves the list unchanged |
| RecipeViews.Cells | backend/api/recipes/views.py:138-141 | an entry becomes the row [name, total amount, unit], NULL becoming an empty field |
| RecipeViews.DownloadShoppingCart | backend/api/recipes/views.py:148-157 | the file is the header row and then one row per list entry, in the list's order |
| FavoritedSerializers.ValidateAndGetObject | backend/api/favorited/serializers.py:11-21 | the recipe is found iff the key is given and stored; otherwise a validation error on POST and not-found on any other method |
| FavoritedSerializers.CreateStep | backend/api/favorited/serializers.py:23-30 | succeeds iff the recipe exists and the pair is absent, and then inserts exactly that pair; a present pair fails with "already there"; a failure changes nothing |
| FavoritedSerializers.DestroyStep | backend/api/favorited/serializers.py:32-39 | succeeds iff the recipe exists and the pair is present, and then removes exactly that pair; an absent pair is a validation error; a failure changes nothing |
| FavoritedSerializers.CreateThenDestroyRestores | backend/api/favorited/serializers.py:23-39 | a successful create followed by destroy of the same pair restores the table |
| FavoritedSerializers.CreateTwiceFails | backend/api/favorited/serializers.py:26-30 | a second create of the same pair fails with "already there" and leaves the table as the first left it |
| FavoritedSerializers.FlagFollowsMembership | backend/api/recipes/serializers.py:51-67 | after create the requester's flag is set, after destroy it is clear, and it is never set for anonymous |
| FavoritedSerializers.MembershipTable.Create | backend/api/favorited/serializers.py:55-64 | the table (favorites or cart, by `kind`) becomes the one `CreateStep` gives, with its outcome |
| FavoritedSerializers.MembershipTable.Destroy | backend/api/favorited/serializers.py:66-75 | the table becomes the one `DestroyStep` gives, with its outcome |
| SubscriptionSerializers.ValidateUserFollowingAdd | backend/api/subscriptions/serializers.py:21-29 | passes iff the author is not the requester and not yet followed; self-subscription is reported first |
| SubscriptionSerializers.ValidateUserFollowingRemove | backend/api/subscriptions/serializers.py:31-35 | passes iff the author is followed, else "not subscribed" |
| SubscriptionSerializers.SaveStep | backend/api/subscriptions/serializers.py:37-42 | the outcome is the add check's; on success exactly the row (requester, author) is added, else nothing changes |
| SubscriptionSerializers.DestroyStep | backend/api/subscriptions/serializers.py:44-49 | the outcome is the remove check's; on success exactly that row is removed, else nothing changes |
| SubscriptionSerializers.SaveChangesOnlyRequester | backend/api/subscriptions/serializers.py:37-42 | a successful save adds exactly the author to the requester's subscriptions, changes nobody else's, and keeps the relation free of self-loops |
| SubscriptionSerializers.DestroyChangesOnlyRequester | backend/api/subscriptions/serializers.py:44-49 | a successful destroy removes exactly the author from the requester's subscriptions and changes nobody else's |
| SubscriptionSerializers.UninvolvedUserUnchanged | backend/api/subscriptions/serializers.py:37-49 | a user who is neither requester nor author keeps their subscriptions and subscribers through save and destroy, whatever the outcome |
| SubscriptionSerializers.SaveThenDestroyRestores | backend/api/subscriptions/serializers.py:37-49 | subscribe then unsubscribe restores the relation; subscribing again fails with "already subscribed" |
| SubscriptionSerializers.SubscribedFlagFollowsSteps | backend/api/subscriptions/serializers.py:37-49 | after a successful save the intended flag is set; after destroy, whatever its outcome, it is clear |
| SubscriptionSerializers.FollowGraph.Save | backend/api/subscriptions/serializers.py:37-42 | the relation becomes the one `SaveStep` gives, with its outcome |
| SubscriptionSerializers.FollowGraph.Destroy | backend/api/subscriptions/serializers.py:44-49 | the relation becomes the one `DestroyStep` gives, with its outcome |
| SubscriptionSerializers.RecipesShown | backend/api/subscriptions/serializers.py:51-62 | the author's recipes in listing order, in short form; given a limit n, the first n, so the length is min(n, total); each shown entry is a stored recipe of the author |
| SubscriptionSerializers.GetRecipes | backend/api/subscriptions/serializers.py:51-62 | the append loop and the cut produce exactly that list |
| SubscriptionSerializers.GetRecipesCount | backend/api/subscriptions/serializers.py:64-65 | the count is the length of the shown list: at most the limit and at most the author's total |
| SubscriptionSerializers.CountIsOfTruncatedList | backend/api/subscriptions/serializers.py:64-65 | with two recipes by the author and a limit of 1 the count is 1, not 2 |

## Left out

- HTTP and framework mechanics are not modelled: requests, status codes, `HttpResponse`, csv quoting and `to_representation` JSON shapes. Only the error kind (validation or not-found) and a reason code are kept, not the message texts.
- The view wiring in `backend/api/recipes/views.py:51-127` is not modelled. It calls the membership serializers with arguments their signatures do not take; the serializer semantics are modelled instead, with the recipe key as an explicit parameter.
- `backend/api/users/views.py`, `backend/api/urls.py`, `backend/api/mixins.py`, `backend/api/pagination.py`, settings and the admin modules are not part of this model: they are routing, configuration and UI.
- `backend/api/fields.py` (`Base64ImageField`) is not part of this model, because it does base64 decoding and writes a file. The image is an opaque string.
- Concurrency is not modelled. The race between a check and the insert is ignored, and unique constraints are taken to hold atomically.
- `favorited/models.py` is not part of this model. The favorites and cart tables are only the sets of pairs their unique constraint implies, and deleting a recipe does not touch them here.
- Integer widths are not modelled: ids, amounts and cooking times are unbounded integers.
- Field length limits (`max_length`) are not modelled.
- The framework's field classes are not modelled. Only their effect is: recipe name and text are trimmed and refused when blank, and filter values are trimmed and skipped when blank.
- Only one error is reported per submission. The framework would collect every failing field.
- Filters.FilterRecipes: the `author` value is taken as already cleaned and parsed to a user id. A value that does not parse as an integer is not modelled.
- The case sensitivity of `startswith`, which depends on the database backend, is not modelled: FilterByName is case-sensitive.
- The row order of the grouping query is database-defined. The model lists groups by first occurrence, and no lemma depends on that order.
- RecipesShown: a non-integer or negative `recipes_limit` is not modelled (it makes `int()` fail or slices from the end). The limit is an optional natural number, and an empty value counts as absent.
- UserSerializers.ValidateUsername: lower-casing is modelled for A-Z only. Python's full Unicode lower-casing maps no other character to "m" or "e", so the refused set is the same.
- The e-mail normalisation of `AbstractUser.clean` and the djoser parent serializers are not part of this model.
- RecipeSerializers.RecipeDb.Update requires that the recipe's own author has no other recipe with the submitted name and text. When a superuser edits someone else's recipe, `validate` checks the superuser instead, and a clash then surfaces as an integrity error from the database. That path is not modelled.
- The framework's own check that a required list was sent is represented by the reason `InvalidField`. As a result, `update` is never reached with an omitted list through `ValidateSubmission`. `RecipeDb.Update` still models the `[]` default of `update` itself.
- The `is_subscribed` field of the subscription serializer (a constant default) is not modelled.
- `CustomCurrentUserOrAdminOrReadOnly.has_object_permission` is not modelled. Its `super(CurrentUserOrAdminOrReadOnly, self)` call skips djoser's own `CurrentUserOrAdminOrReadOnly.has_object_permission` and uses the method of the class after it in the method resolution order. That hierarchy belongs to djoser, which is not part of this model. Likewise, the inherited verdict in HasPermission is a parameter.

## Findings

| source | as written | input that shows it | evidently intended | confidence | as-written member | corrected member |
|---|---|---|---|---|---|---|
| backend/api/recipes/serializers.py:93-104 | `validate` searches all recipes for the submitted name, text and requester, and does not exclude the recipe being updated | an author updates a stored recipe, changing only its ingredients, tags, image or cooking time and keeping its name and text: the update is refused as a duplicate of itself | the recipe being updated is left out of the duplicate search | not executed | RecipeSerializers.UpdateKeepingNameAndTextIsRefused | RecipeSerializers.ValidateSubmissionExcluding |
| backend/api/users/serializers.py:25 | `user.subscriptions.filter(subscription=obj)` keeps the followed users that `obj` also follows, so the flag is true iff the requester and `obj` follow a common user | rows (1, 2) only: user 1 follows user 2, yet the flag for 2 is false; rows (1, 3), (2, 3): user 1 does not follow 2, yet the flag is true | true iff `obj` is among the requester's subscriptions | not executed | UserSerializers.IsSubscribedAsWrittenDisagrees | UserSerializers.IsSubscribed |
