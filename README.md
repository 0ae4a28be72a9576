# Relationship graph of the recipes server, in Dafny

This project models the user routes of a recipe-sharing backend
(`routes/user.js`). A user follows other users, favourites recipes and owns
the recipes they created. The routes keep three id lists per user
(`recipes`, `favourites`, `following`) in step with the `users` and
`recipes` collections. They do this with MongoDB's `$push` (append) and
`$pull` (remove every occurrence), `findByIdAndDelete` and `find()`.

The model has three modules:

- `MongoArray` (`mongo_array.dfy`) defines `$pull` (`Pull`), a pull of a
  whole set of ids (`Without`) and the check-then-push-or-pull flip
  (`Toggle`). It proves the flip's laws.
- `RecipeDb` (`recipe_db.dfy`) holds the documents and the collections
  (`Db`), plus two invariants:
  - `Linked` (I1): every id in a user's `recipes` names an existing recipe
    that the same user created.
  - `NoDangling` (I2 and I3): no favourite names a missing recipe, and no
    `following` entry names a missing user.

  It also holds one pure transition per mutating route, which gives the
  collections after the route has run to completion. Lemmas relate those
  transitions to each other and to the invariants.
- `UserRoutes` (`user_routes.dfy`) holds the class `Store`. Its fields are
  the two collections, and it has one method per route. Each method updates
  the fields step by step, as the route does: flag loops over the in-memory
  user, `$push`/`$pull`, and full-collection cascades over a `User.find()`
  snapshot. Each mutating method is proved to end in exactly the state that
  the `RecipeDb` transition gives, and to keep `Linked`. The read-only
  routes are methods whose contracts state their flags and outcomes.

Assumptions at the boundary:

- **Authentication.** `tokenValidation` (not part of this model) becomes
  the precondition that the caller's id is a key of `users`. The model also
  takes the user it returns to be the stored document as it is, with its
  `recipes`, `favourites` and `following` lists unpopulated. Such a list
  holds every stored id, including ids whose document is gone. The toggles,
  `GET /recipe/:recipeId` and the write-back in `PUT /updateUser` all read
  those lists.
- **Ownership.** `verifyOwner` (not part of this model) becomes `IsOwner`:
  the recipe exists and its `creator` is the caller. When the recipe is
  missing, the gate denies.
- **New ids.** `Recipe.create` assigns a new `_id`. It arrives as a
  parameter that is not yet a recipe id.
- **Password hashing.** `bcrypt.hashSync(password, salt)` uses a salt drawn
  once at start-up, so it is a fixed function of the plaintext. The store
  takes it as the constant `hash`.
- **Ids.** All ids are one type that is only compared for equality, as
  ObjectIds are.
- **Concurrency.** The `async` callbacks of every cascade run one after
  another to completion, before the route answers.

Where the code and the intended design differ, the model follows the code:

- **Unchecked toggles.** The two toggle routes push the requested id without
  checking that it exists. Self-follow is also allowed. So I2 and I3 are
  not invariants of the running system; `TogglesCanDangle` shows how each
  one breaks. Every other route keeps them.
- **Password message.** The constant is 8, but the message for a short
  password says "ten characters". The model enforces 8.
- **Favourites cascade.** The cascades compare ids with the global
  `toString`, which ignores its argument. A `$pull` is therefore sent to
  every user whose favourites list is non-empty. The model does the same
  (`FindWithGlobalToString`). `GlobalToStringHarmless` proves the end
  state is the one that comparing ids would give.
- **Not-found cases.** The code has no not-found error for a recipe that is
  already gone. Such a recipe fails the ownership gate. In the user-deletion
  cascade, a listed recipe id that no longer exists makes line 464 read
  `_id` of null. That throws, as an unhandled rejection, in the callback of
  every user whose favourites list is non-empty, so no pull is issued for
  that id. The model skips the id. Under I1 this happens only when the
  deleted user's `recipes` list holds the same id twice.

## Model

| member | source | states |
|---|---|---|
| MongoArray.Pull | routes/user.js:151-153 | `$pull` leaves no occurrence of the id, and every other id in the list stays in it. |
| MongoArray.PullCounts | routes/user.js:151-153 | `$pull` keeps every other element with its number of occurrences, and leaves none of the pulled id. |
| MongoArray.Without | routes/user.js:455-472 | Pulling a set of ids leaves exactly the elements outside the set. |
| MongoArray.PullAbsent | routes/user.js:339-343 | A `$pull` of an id that is not in the list changes nothing. |
| MongoArray.PullIdempotent | routes/user.js:445-451 | Repeating the same `$pull`, once per matching entry, has the effect of one. |
| MongoArray.PullAfterPush | routes/user.js:146-154 | A `$pull` undoes the `$push` of an id that was absent. |
| MongoArray.WithoutNothing | routes/user.js:455 | Before any recipe of the deleted user is handled, no favourites list has changed. |
| MongoArray.PullWithout | routes/user.js:455-472 | One more recipe's `$pull` after the earlier ones is the same as pulling the larger set. |
| MongoArray.Toggle | routes/user.js:138-154 | The toggle puts the id in the list exactly when it was absent (appended at the end) and changes nothing else. |
| MongoArray.ToggleTwiceMembership | routes/user.js:138-154 | Two toggles in a row restore the membership of every id. |
| MongoArray.ToggleTwiceFromAbsent | routes/user.js:138-154 | If the id was absent, two toggles restore the list exactly. |
| MongoArray.ToggleTwiceFromPresent | routes/user.js:138-154 | If the id was present, two toggles leave it once at the end of the list. |
| RecipeDb.IsOwner | routes/user.js:271-278 | The stand-in for `verifyOwner`: the gate passes only for an existing recipe whose creator is the caller, so it fails closed on a missing recipe. |
| RecipeDb.PullFavouriteAll | routes/user.js:335-344 | The favourites cascade keeps every user and leaves the recipe id in no user's `favourites`. |
| RecipeDb.PullFollowingAll | routes/user.js:443-453 | The following cascade keeps every user and leaves the deleted user in no `following` list. |
| RecipeDb.PullFollowingAllClears | routes/user.js:443-453 | After the following cascade a user no longer follows the deleted user, and every other field of theirs is as it was. |
| RecipeDb.WithoutFavouritesAll | routes/user.js:455-472 | The favourites cascade for a set of recipe ids keeps every user and leaves none of those ids in any `favourites`. |
| RecipeDb.DeleteUser | routes/user.js:433-472 | The user-deletion transition removes exactly the caller from `users` and exactly the recipes listed in the caller's document from `recipes`. Its other effects are stated by `DeleteUserCascades` and `DeleteUserFrame`. |
| RecipeDb.Lookup | routes/user.js:156-158 | `findById` gives the document when the id is a key, and null otherwise. |
| RecipeDb.FollowUser | routes/user.js:138-160 | The target's membership in the caller's `following` flips: appended if absent, every occurrence pulled if present. Nothing else in any user or recipe changes, and the answer is the target's document read afterwards. |
| RecipeDb.FavouriteRecipe | routes/user.js:174-192 | The recipe id's membership in the caller's `favourites` flips, whether or not the recipe exists. Nothing else changes, and the route redirects to that id. |
| RecipeDb.NewRecipe | routes/user.js:237-255 | The new recipe has the given fields and the caller as creator. Its id is appended to the caller's `recipes`. No other user or recipe changes. |
| RecipeDb.UpdateRecipe | routes/user.js:271-296 | A non-owner is denied and both collections stay the same. An owner's recipe gets the four fields, keeps the caller as creator, and nothing else changes. |
| RecipeDb.DeleteRecipe | routes/user.js:312-346 | A non-owner is denied and both collections stay the same. For an owner, the recipe is gone, the id is absent from the caller's `recipes` and from every user's `favourites`, and the answer is the deleted document. |
| RecipeDb.DeleteRecipeFrame | routes/user.js:327-344 | A recipe deletion changes only the caller's `recipes` and each user's `favourites`, each by a `$pull` of that id. |
| RecipeDb.UpdateUser | routes/user.js:358-419 | The update is done exactly when the username and password are both non-empty and the password has at least 8 characters. Otherwise the route rejects with the route's message and changes nothing. On success the username and hashed password are stored, the three id lists are kept, and no other document changes. |
| RecipeDb.DeleteUserCascades | routes/user.js:433-472 | After a user deletion the user is gone and absent from every remaining `following`. Every recipe its deleted document listed is gone and absent from every remaining `favourites`. All other recipes are untouched. |
| RecipeDb.DeleteUserFrame | routes/user.js:443-472 | A remaining user keeps their username, password and recipes. Their `following` is exactly the old list with the deleted user pulled, and their `favourites` exactly the old list with the deleted user's listed recipes pulled. So every other follow and favourite is kept and nothing is added. |
| RecipeDb.WithoutNoFavouritesAll | routes/user.js:455 | Removing no recipe ids leaves every user as they were. |
| RecipeDb.PullFavouriteAfterWithout | routes/user.js:455-472 | The favourites cascade for one more listed recipe extends the set of removed ids by that recipe. |
| RecipeDb.TogglesKeepLinked | routes/user.js:138-190 | Both toggles keep I1. |
| RecipeDb.TogglesCanDangle | routes/user.js:146-149 | Following a missing user breaks I3, and favouriting a missing recipe breaks I2, because the toggle does not check existence. |
| RecipeDb.NewRecipeLinksOnce | routes/user.js:237-253 | After creation the id appears exactly once in the creator's `recipes` and the recipe's creator is the caller. I1 holds afterwards, and I2/I3 too if they held before. |
| RecipeDb.UpdateRecipeKeepsCreator | routes/user.js:285-290 | Updating a recipe never changes its creator, and it keeps I1 and I2/I3. |
| RecipeDb.DeleteRecipeKeepsInvariants | routes/user.js:321-344 | Deleting a recipe keeps I1, and keeps I2/I3 if they held before. |
| RecipeDb.DeleteRecipeKeepsLinked | routes/user.js:321-329 | After an owner's recipe deletion every id left in a `recipes` list still names a recipe that user created. |
| RecipeDb.DeleteRecipeKeepsFavourites | routes/user.js:321-344 | If I2/I3 held, then after an owner's recipe deletion every favourite still names a recipe and every follow a user. |
| RecipeDb.UpdateUserKeepsInvariants | routes/user.js:402-408 | Replacing the credentials keeps I1 and I2/I3. |
| RecipeDb.DeleteUserKeepsOthersRecipe | routes/user.js:455-460 | Under I1, a recipe that another user lists is not one of the deleted user's recipes, and that other user created it. |
| RecipeDb.DeleteUserKeepsRecipeList | routes/user.js:443-453 | A user left after the deletion is not the deleted one, and their `recipes` list is untouched. |
| RecipeDb.LinkedAfterRemoval | routes/user.js:433-472 | Removing other users and the deleted user's listed recipes, while leaving every remaining `recipes` list, keeps I1. |
| RecipeDb.DeleteUserKeepsLinked | routes/user.js:433-472 | Deleting a user keeps I1. |
| RecipeDb.DeleteUserKeepsNoDangling | routes/user.js:433-472 | Deleting a user keeps I2/I3 if they held before. |
| RecipeDb.FollowUserTwice | routes/user.js:138-154 | Two follow toggles in a row restore the caller's follow set. If the target was not followed, they restore both collections exactly. |
| RecipeDb.FavouriteRecipeTwice | routes/user.js:174-190 | Two favourite toggles in a row restore the caller's favourites. If the recipe was not a favourite, they restore both collections exactly. |
| RecipeDb.FindWithGlobalToString | routes/user.js:336-338 | The `find` with the global `toString` finds a match exactly when the favourites list is non-empty. |
| RecipeDb.GlobalToStringHarmless | routes/user.js:335-344 | Pulling whenever the list is non-empty gives the same list as pulling only when the id is present. |
| UserRoutes.IsMember | routes/user.js:140-144 | The flag loop sets its flag exactly when the id is in the list. |
| UserRoutes.Store.GetUser | routes/user.js:41-53 | `followed` is true exactly when the target is in the caller's `following`, and the found document is the target's or null. A missing target is allowed only when the caller follows nobody, because otherwise line 47 dereferences null. |
| UserRoutes.Store.GetRecipe | routes/user.js:206-220 | `favourite` is true exactly when the id is in the caller's `favourites`, even when the recipe does not exist. The recipe is returned or null. |
| UserRoutes.Store.SearchUser | routes/user.js:67-87 | "does not exist" is answered exactly when no user has the name. "Do not search" is answered only for the caller's own name, and always when the caller is the only user with it. The answer is always one of those two messages or a found user. A found user is another user with that name, shown without the password. Whenever some user has the name and the caller's own name differs, a user is found. |
| UserRoutes.Store.FollowUser | routes/user.js:138-160 | Ends in the state and answer of `RecipeDb.FollowUser` and keeps I1. |
| UserRoutes.Store.FavouriteRecipe | routes/user.js:174-192 | Ends in the state and redirect of `RecipeDb.FavouriteRecipe` and keeps I1. |
| UserRoutes.Store.NewRecipe | routes/user.js:237-255 | Ends in the state of `RecipeDb.NewRecipe` and keeps I1. |
| UserRoutes.Store.UpdateRecipe | routes/user.js:271-296 | Ends in the state and answer of `RecipeDb.UpdateRecipe` and keeps I1. |
| UserRoutes.Store.PullFavouriteEverywhere | routes/user.js:335-344 | The loop over the `User.find()` snapshot, deciding on stale favourites, ends with the id pulled from every user's favourites and no other change. |
| UserRoutes.Store.DeleteRecipe | routes/user.js:312-346 | Ends in the state and answer of `RecipeDb.DeleteRecipe` and keeps I1. |
| UserRoutes.Store.UpdateUser | routes/user.js:358-419 | Ends in the state and outcome of `RecipeDb.UpdateUser` and keeps I1. |
| UserRoutes.Store.PullFollowingOf | routes/user.js:445-451 | One `$pull` per matching entry leaves the user's `following` pulled once, and leaves every other user alone. |
| UserRoutes.Store.PullFollowingEverywhere | routes/user.js:443-453 | The nested loop ends with the deleted user pulled from every remaining user's `following` and no other change. |
| UserRoutes.Store.DeleteListedRecipe | routes/user.js:456-471 | Deleting one listed recipe, and pulling it from favourites when the delete found it, extends the handled set by that id. |
| UserRoutes.Store.DeleteListedRecipes | routes/user.js:455-472 | The loop over the deleted document's `recipes` deletes all of them and removes them from every favourites list. |
| UserRoutes.Store.DeleteUser | routes/user.js:431-478 | Ends in the state of `RecipeDb.DeleteUser`, so `RecipeDb.DeleteUserCascades` holds of it. It keeps I1 and answers the success message. |

## Left out

- Express routing, response framing and `res.redirect`. Routes return values or tagged outcomes instead.
- `GET /user` (routes/user.js:14-26), which only echoes the authenticated user.
- `GET /searchRecipe/:recipeName` (routes/user.js:90-125). It reads `recipe._id` before checking for null. Its early `return` only leaves the `forEach` callback, so it can send two responses. It has no consistent contract to model.
- `tokenValidation` and `verifyOwner`, whose sources are not part of this model. They are modelled as `caller in users` and as `IsOwner`.
- bcrypt hashing and salt generation. The hash is an arbitrary fixed function `hash`.
- Concurrency. The cascades' `async` callbacks are not awaited, and the pull at line 447 is not awaited at all. The model runs each cascade to completion in sequence, so the race between two concurrent toggles is not modelled.
- The username-uniqueness scan of `PUT /updateUser` (routes/user.js:379-398). It runs in un-awaited callbacks and cannot stop the update at line 402, so it has no effect in the model.
- Failures of Mongoose itself: a failed `Recipe.create`, a failed update caught at lines 292-294 and 410-417, schema validation and casting errors for malformed ids. Each is excluded by the preconditions or not modelled.
- Crashes from null dereferences at lines 47, 252, 328 and 455. They become preconditions (`caller in users`, a fresh `newId`, the ownership gate, and the target-exists-or-no-follows condition of `GetUser`). The crash at line 464, for a listed recipe that is already gone, is modelled by skipping that id, as described above.
- `populate` of `recipes`, `favourites` and `creator`. Answers carry ids, not resolved documents.
- Password length is counted in Dafny characters, where JavaScript's `length` counts UTF-16 code units.
- `req.body` fields that are missing or are not strings. `NewRecipe` and `UpdateRecipe` assume every body field is present and is a string (a list of strings for `ingredients`). So an `undefined` field passed to `Recipe.create` or `findByIdAndUpdate` (lines 237-243 and 285-290) is not modelled. `UpdateUser` does model an absent or empty username or password, but not one that is not a string.
- A populated `following` or `favourites` on the authenticated user. Mongoose's populate drops entries whose document is missing. Then a toggle on a dangling id would push it again instead of pulling it, `GET /recipe/:recipeId` would report a deleted favourite as not a favourite, and the write-back at lines 405-407 would drop dangling ids. The model reads the lists unpopulated, as stated above.
- UserRoutes.Store.SearchUser: when several users share the name, the model does not fix which match `findOne` returns. It only states what each possible answer implies.
- UserRoutes.Store.DeleteUser: proved for a store that satisfies I1, the invariant every route keeps. On a store that breaks I1, the cascade would skip recipe ids that are missing, and this case is not stated.
