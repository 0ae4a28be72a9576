/** The handlers of routes/user.js as methods of one store that holds the
    two collections and updates them step by step, as the routes do through
    Mongoose. Every mutating handler is proved to end in the state that the
    matching transition of RecipeDb describes, and to keep invariant I1. */
module UserRoutes {
  import opened MongoArray
  import opened RecipeDb

  /** The `forEach` that sets a flag when an element equals `x`; it walks
      the whole list, like the routes' loops. */
  method IsMember(s: seq<Id>, x: Id) returns (found: bool)
    ensures found <==> x in s
  {
    found := false;
    var i := 0;
    while i < |s|
      invariant 0 <= i <= |s|
      invariant found <==> x in s[..i]
    {
      if s[i] == x {
        found := true;
      }
      assert s[..i + 1] == s[..i] + [s[i]];
      i := i + 1;
    }
    assert s[..i] == s;
  }

  /** The outcome of GET /searchUser/:username. */
  datatype SearchOutcome = Found(user: UserView) | NotShown(message: string)

  /** A user document read with the projection `{ password: 0 }`. */
  datatype UserView = UserView(id: Id, username: string, recipes: seq<Id>,
                               favourites: seq<Id>, following: seq<Id>)

  function View(id: Id, u: User): UserView {
    UserView(id, u.username, u.recipes, u.favourites, u.following)
  }

  const SelfSearchMessage := "Do not search you profile."
  const NoSuchUserMessage := "This user does not exist."

  class Store {
    var users: map<Id, User>
    var recipes: map<Id, Recipe>
    /** `bcrypt.hashSync(_, salt)` with the salt drawn once at start-up. */
    const hash: string -> string

    function State(): Db
      reads this
    {
      Db(users, recipes)
    }

    ghost predicate Valid()
      reads this
    {
      Linked(State())
    }

    constructor (users0: map<Id, User>, recipes0: map<Id, Recipe>, hash0: string -> string)
      requires Linked(Db(users0, recipes0))
      ensures Valid() && State() == Db(users0, recipes0) && hash == hash0
    {
      users, recipes, hash := users0, recipes0, hash0;
    }

    // -------------------------------------------------------------------
    // Read-side routes

    /** GET /user/:userId (routes/user.js:41-53). The flag loop dereferences
        the looked-up user once per entry of `following`, so a missing target
        is only survivable when the caller follows nobody. */
    method GetUser(caller: Id, target: Id) returns (found: Option<User>, followed: bool)
      requires caller in users
      requires target in users || |users[caller].following| == 0
      ensures found == Lookup(users, target)
      ensures followed <==> target in users[caller].following
    {
      found := Lookup(users, target);
      followed := false;
      var me := users[caller];
      if |me.following| != 0 {
        followed := IsMember(me.following, target);
      }
    }

    /** GET /recipe/:recipeId (routes/user.js:206-220): the flag is computed
        from the caller's favourites before the recipe is looked up, so it
        can be true for a recipe that no longer exists. */
    method GetRecipe(caller: Id, rid: Id) returns (recipe: Option<Recipe>, favourite: bool)
      requires caller in users
      ensures favourite <==> rid in users[caller].favourites
      ensures recipe == Lookup(recipes, rid)
    {
      favourite := IsMember(users[caller].favourites, rid);
      recipe := Lookup(recipes, rid);
    }

    /** GET /searchUser/:username (routes/user.js:67-87). `findOne` returns
        some user with that name; which one, when several share it, is the
        database's choice. */
    method SearchUser(caller: Id, name: string) returns (result: SearchOutcome)
      requires caller in users
      ensures result == NotShown(NoSuchUserMessage) <==>
                forall id :: id in users ==> users[id].username != name
      ensures result == NotShown(SelfSearchMessage) ==> users[caller].username == name
      ensures result.Found? ==>
                && result.user.id in users
                && result.user.id != caller
                && users[result.user.id].username == name
                && result.user == View(result.user.id, users[result.user.id])
      ensures users[caller].username == name &&
              (forall id :: id in users && users[id].username == name ==> id == caller) ==>
                result == NotShown(SelfSearchMessage)
      ensures result.Found? || result == NotShown(NoSuchUserMessage) || result == NotShown(SelfSearchMessage)
      ensures users[caller].username != name && (exists id :: id in users && users[id].username == name) ==>
                result.Found?
    {
      if exists id | id in users :: users[id].username == name {
        var id :| id in users && users[id].username == name;
        if id == caller {
          result := NotShown(SelfSearchMessage);
        } else {
          result := Found(View(id, users[id]));
        }
      } else {
        result := NotShown(NoSuchUserMessage);
      }
    }

    // -------------------------------------------------------------------
    // Toggles

    /** POST /followUser/:userId (routes/user.js:138-160). */
    method FollowUser(caller: Id, target: Id) returns (followedUser: Option<User>)
      requires Valid() && caller in users
      modifies this
      ensures Valid()
      ensures Step(followedUser, State()) == RecipeDb.FollowUser(old(State()), caller, target)
    {
      var me := users[caller];
      var alreadyFollowing := IsMember(me.following, target);
      if !alreadyFollowing {
        users := users[caller := me.(following := me.following + [target])];
      } else {
        users := users[caller := me.(following := Pull(me.following, target))];
      }
      followedUser := Lookup(users, target);
      TogglesKeepLinked(old(State()), caller, target);
    }

    /** POST /favouriteRecipe/:recipeId (routes/user.js:174-192). */
    method FavouriteRecipe(caller: Id, rid: Id) returns (redirect: Id)
      requires Valid() && caller in users
      modifies this
      ensures Valid()
      ensures Step(redirect, State()) == RecipeDb.FavouriteRecipe(old(State()), caller, rid)
    {
      var me := users[caller];
      var alreadyFavourite := IsMember(me.favourites, rid);
      if !alreadyFavourite {
        users := users[caller := me.(favourites := me.favourites + [rid])];
      } else {
        users := users[caller := me.(favourites := Pull(me.favourites, rid))];
      }
      redirect := rid;
      TogglesKeepLinked(old(State()), caller, rid);
    }

    // -------------------------------------------------------------------
    // Recipe lifecycle

    /** POST /newRecipe (routes/user.js:237-255); `newId` is the `_id` that
        `Recipe.create` assigns. */
    method NewRecipe(caller: Id, newId: Id, name: string, country: string,
                     ingredients: seq<string>, preparation: string) returns (redirect: Id)
      requires Valid() && caller in users && newId !in recipes
      modifies this
      ensures Valid()
      ensures Step(redirect, State())
           == RecipeDb.NewRecipe(old(State()), caller, newId, name, country, ingredients, preparation)
    {
      recipes := recipes[newId := Recipe(name, country, ingredients, preparation, caller)];
      var me := users[caller];
      users := users[caller := me.(recipes := me.recipes + [newId])];
      redirect := newId;
      NewRecipeLinksOnce(old(State()), caller, newId, name, country, ingredients, preparation);
    }

    /** POST /updateRecipe/:recipeId (routes/user.js:271-296). */
    method UpdateRecipe(caller: Id, rid: Id, name: string, country: string,
                        ingredients: seq<string>, preparation: string) returns (outcome: Gated<Id>)
      requires Valid() && caller in users
      modifies this
      ensures Valid()
      ensures Step(outcome, State())
           == RecipeDb.UpdateRecipe(old(State()), caller, rid, name, country, ingredients, preparation)
    {
      var isRecipeOwner := IsOwner(State(), caller, rid);
      if !isRecipeOwner {
        return Denied(NotAllowedMessage);
      }
      var stored := recipes[rid];
      recipes := recipes[rid := stored.(name := name, country := country,
                                        ingredients := ingredients, preparation := preparation)];
      outcome := Allowed(rid);
      UpdateRecipeKeepsCreator(old(State()), caller, rid, name, country, ingredients, preparation);
    }

    /** The cascade that pulls `rid` from every user's favourites
        (routes/user.js:335-344 and 462-471). It walks `snapshot`, the
        result of `User.find()`, deciding on its stale favourites, and sends
        each `$pull` to the stored document. */
    method PullFavouriteEverywhere(snapshot: map<Id, User>, rid: Id)
      requires snapshot.Keys == users.Keys
      requires forall u :: u in snapshot && snapshot[u].favourites == [] ==> users[u].favourites == []
      modifies this
      ensures users == PullFavouriteAll(old(users), rid)
      ensures recipes == old(recipes)
    {
      var pending := snapshot.Keys;
      while pending != {}
        invariant pending <= snapshot.Keys
        invariant users.Keys == old(users).Keys
        invariant forall u :: u in old(users) && u !in pending ==>
                    users[u] == old(users)[u].(favourites := Pull(old(users)[u].favourites, rid))
        invariant forall u :: u in pending ==> users[u] == old(users)[u]
        invariant recipes == old(recipes)
        decreases pending
      {
        var u :| u in pending;
        var foundFavourite := FindWithGlobalToString(snapshot[u].favourites, rid);
        if foundFavourite.Some? {
          users := users[u := users[u].(favourites := Pull(users[u].favourites, rid))];
        }
        pending := pending - {u};
      }
    }

    /** DELETE /deleteRecipe/:recipeId (routes/user.js:312-346). */
    method DeleteRecipe(caller: Id, rid: Id) returns (outcome: Gated<Recipe>)
      requires Valid() && caller in users
      modifies this
      ensures Valid()
      ensures Step(outcome, State()) == RecipeDb.DeleteRecipe(old(State()), caller, rid)
    {
      var isRecipeOwner := IsOwner(State(), caller, rid);
      if !isRecipeOwner {
        return Denied(NotAllowedMessage);
      }
      var recipe := recipes[rid];
      recipes := recipes - {rid};
      var me := users[caller];
      users := users[caller := me.(recipes := Pull(me.recipes, rid))];
      var allUsers := users;
      PullFavouriteEverywhere(allUsers, rid);
      outcome := Allowed(recipe);
      DeleteRecipeKeepsInvariants(old(State()), caller, rid);
    }

    // -------------------------------------------------------------------
    // Account routes

    /** PUT /updateUser (routes/user.js:358-419). The username scan at
        lines 379-398 cannot stop the update, so it is not modelled. */
    method UpdateUser(caller: Id, username: Option<string>, password: Option<string>)
      returns (outcome: UpdateUserOutcome)
      requires Valid() && caller in users
      modifies this
      ensures Valid()
      ensures Step(outcome, State()) == RecipeDb.UpdateUser(old(State()), caller, username, password, hash)
    {
      if !Truthy(username) || !Truthy(password) {
        return Rejected(MissingCredentialsMessage);
      }
      if |password.value| < MinPasswordLength {
        return Rejected(ShortPasswordMessage);
      }
      var hashPass := hash(password.value);
      var user := users[caller];
      users := users[caller := User(username.value, hashPass, user.recipes, user.favourites, user.following)];
      outcome := Updated;
      UpdateUserKeepsInvariants(old(State()), caller, username, password, hash);
    }

    /** The inner `forEach` of routes/user.js:445-451: one `$pull` of `uid`
        from user `u` for each entry of `followingArr`, the snapshot of that
        user's `following`, that equals `uid`. */
    method PullFollowingOf(u: Id, followingArr: seq<Id>, uid: Id)
      requires u in users && users[u].following == followingArr
      modifies this
      ensures users == old(users)[u := old(users)[u].(following := Pull(followingArr, uid))]
      ensures recipes == old(recipes)
    {
      var j := 0;
      while j < |followingArr|
        invariant 0 <= j <= |followingArr|
        invariant users == old(users)[u := if uid in followingArr[..j]
                                           then old(users)[u].(following := Pull(followingArr, uid))
                                           else old(users)[u]]
        invariant recipes == old(recipes)
      {
        if followingArr[j] == uid {
          PullIdempotent(followingArr, uid);
          users := users[u := users[u].(following := Pull(users[u].following, uid))];
        }
        assert followingArr[..j + 1] == followingArr[..j] + [followingArr[j]];
        j := j + 1;
      }
      assert followingArr[..j] == followingArr;
      if uid !in followingArr {
        PullAbsent(followingArr, uid);
        assert old(users)[u := old(users)[u]] == old(users);
      }
    }

    /** The cascade that pulls `uid` from every user's `following`
        (routes/user.js:443-453), walking the result of `User.find()`. */
    method PullFollowingEverywhere(uid: Id)
      modifies this
      ensures users == PullFollowingAll(old(users), uid)
      ensures recipes == old(recipes)
    {
      var allUsers := users;
      var pending := allUsers.Keys;
      while pending != {}
        invariant pending <= allUsers.Keys
        invariant users.Keys == allUsers.Keys
        invariant forall u :: u in allUsers && u !in pending ==>
                    users[u] == allUsers[u].(following := Pull(allUsers[u].following, uid))
        invariant forall u :: u in pending ==> users[u] == allUsers[u]
        invariant recipes == old(recipes)
        decreases pending
      {
        var u :| u in pending;
        PullFollowingOf(u, allUsers[u].following, uid);
        pending := pending - {u};
      }
    }

    /** One step of the second cascade of DELETE /deleteUser
        (routes/user.js:456-471): `findByIdAndDelete(rid)`, then, when it
        found the recipe, the favourites cascade for it. `done` are the
        recipe ids handled before; `original` the recipes before the first. */
    method DeleteListedRecipe(allUsers: map<Id, User>, ghost unfollowed: map<Id, User>,
                              ghost original: map<Id, Recipe>, ghost done: set<Id>, rid: Id)
      requires allUsers.Keys == unfollowed.Keys
      requires forall u :: u in allUsers ==> unfollowed[u].favourites == allUsers[u].favourites
      requires users == WithoutFavouritesAll(unfollowed, done)
      requires recipes == original - done && rid in original
      modifies this
      ensures users == WithoutFavouritesAll(unfollowed, done + {rid})
      ensures recipes == original - (done + {rid})
    {
      if rid in recipes {
        recipes := recipes - {rid};
        forall u | u in allUsers && allUsers[u].favourites == []
          ensures users[u].favourites == []
        {
          assert |Without(unfollowed[u].favourites, done)| <= 0;
        }
        PullFavouriteEverywhere(allUsers, rid);
        PullFavouriteAfterWithout(unfollowed, done, rid);
      } else {
        assert done + {rid} == done;
      }
    }

    /** The second cascade of DELETE /deleteUser (routes/user.js:455-472):
        each recipe the deleted document listed is deleted and, when the
        delete found it, pulled from every user. `allUsers` is the snapshot
        read at line 439, `unfollowed` the users when the cascade starts. */
    method DeleteListedRecipes(allUsers: map<Id, User>, ghost unfollowed: map<Id, User>, rids: seq<Id>)
      requires users == unfollowed && allUsers.Keys == unfollowed.Keys
      requires forall u :: u in allUsers ==> unfollowed[u].favourites == allUsers[u].favourites
      requires forall x :: x in rids ==> x in recipes
      modifies this
      ensures users == WithoutFavouritesAll(unfollowed, Elems(rids))
      ensures recipes == old(recipes) - Elems(rids)
    {
      var i := 0;
      ghost var done: set<Id> := {};
      WithoutNoFavouritesAll(unfollowed);
      while i < |rids|
        invariant 0 <= i <= |rids|
        invariant done == Elems(rids[..i])
        invariant users == WithoutFavouritesAll(unfollowed, done)
        invariant recipes == old(recipes) - done
      {
        DeleteListedRecipe(allUsers, unfollowed, old(recipes), done, rids[i]);
        assert rids[..i + 1] == rids[..i] + [rids[i]];
        done := done + {rids[i]};
        i := i + 1;
      }
      assert rids[..i] == rids;
    }

    /** DELETE /deleteUser (routes/user.js:431-478). `findByIdAndDelete` hands
        back the deleted document, whose `recipes` drive the second cascade. */
    method DeleteUser(caller: Id) returns (message: string)
      requires Valid() && caller in users
      modifies this
      ensures Valid()
      ensures State() == RecipeDb.DeleteUser(old(State()), caller)
      ensures message == DeletedMessage
    {
      var deletedUser := users[caller];
      users := users - {caller};
      var allUsers := users;
      PullFollowingEverywhere(caller);
      DeleteListedRecipes(allUsers, users, deletedUser.recipes);
      message := DeletedMessage;
      DeleteUserKeepsLinked(old(State()), caller);
    }
  }
}
