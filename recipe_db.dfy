/** The two MongoDB collections the user routes work on, the invariants that
    keep their references coherent, and one pure transition per mutating
    route: what the collections are after the route has run to completion. */
module RecipeDb {
  import opened MongoArray

  /** An ObjectId. Users and recipes draw their ids from the one type, and
      the model only ever compares ids for equality. */
  type Id = nat

  datatype Option<T> = None | Some(value: T)

  /** A user document; `password` holds the stored (hashed) credential. */
  datatype User = User(username: string, password: string,
                       recipes: seq<Id>, favourites: seq<Id>, following: seq<Id>)

  datatype Recipe = Recipe(name: string, country: string, ingredients: seq<string>,
                           preparation: string, creator: Id)

  /** The `users` and `recipes` collections, keyed by `_id`. */
  datatype Db = Db(users: map<Id, User>, recipes: map<Id, Recipe>)

  /** What a route answers, together with the collections after it. */
  datatype Step<T> = Step(reply: T, db: Db)

  /** The answer of a route behind the ownership check. */
  datatype Gated<T> = Denied(message: string) | Allowed(value: T)

  datatype UpdateUserOutcome = Rejected(message: string) | Updated

  const NotAllowedMessage := "You are not allowed to update this recipe."
  const MissingCredentialsMessage := "Provide username and password."
  const ShortPasswordMessage := "You have to provide a password with, at least, ten characters."
  const DeletedMessage := "User has been deleted successfully."
  const MinPasswordLength := 8

  /** `Model.findById(id)`: the document, or null. */
  function Lookup<V>(m: map<Id, V>, id: Id): (r: Option<V>)
    ensures r.Some? <==> id in m
    ensures r.Some? ==> r.value == m[id]
  {
    if id in m then Some(m[id]) else None
  }

  function Elems(s: seq<Id>): set<Id> {
    set x | x in s
  }

  /** Invariant I1: every id in a user's `recipes` names an existing recipe
      that this user created. */
  predicate Linked(db: Db) {
    forall u, x :: u in db.users && x in db.users[u].recipes ==>
      x in db.recipes && db.recipes[x].creator == u
  }

  /** Invariants I2 and I3: no favourite names a missing recipe and no
      `following` entry names a missing user. */
  predicate NoDangling(db: Db) {
    && (forall u, x :: u in db.users && x in db.users[u].favourites ==> x in db.recipes)
    && (forall u, v :: u in db.users && v in db.users[u].following ==> v in db.users)
  }

  /** The ownership gate `verifyOwner(userId, recipeId)`, whose source is not
      part of this model: the recipe exists and `caller` created it. */
  predicate IsOwner(db: Db, caller: Id, rid: Id)
    ensures IsOwner(db, caller, rid) ==> Lookup(db.recipes, rid).Some?
    ensures IsOwner(db, caller, rid) ==> db.recipes[rid].creator == caller
  {
    rid in db.recipes && db.recipes[rid].creator == caller
  }

  /** JavaScript truthiness of a request string: present and not empty. */
  predicate Truthy(s: Option<string>) {
    s.Some? && s.value != ""
  }

  // ---------------------------------------------------------------------
  // Cascades over the whole `users` collection

  /** Every user after `$pull: { favourites: rid }`. */
  function PullFavouriteAll(users: map<Id, User>, rid: Id): (r: map<Id, User>)
    ensures r.Keys == users.Keys
    ensures forall u :: u in r ==> rid !in r[u].favourites
  {
    map u | u in users :: users[u].(favourites := Pull(users[u].favourites, rid))
  }

  /** Every user after `$pull: { following: uid }`. */
  function PullFollowingAll(users: map<Id, User>, uid: Id): (r: map<Id, User>)
    ensures r.Keys == users.Keys
    ensures forall u :: u in r ==> uid !in r[u].following
  {
    map u | u in users :: users[u].(following := Pull(users[u].following, uid))
  }

  /** After the following cascade no user follows `uid`, and every other
      field of every user is as it was. */
  lemma PullFollowingAllClears(users: map<Id, User>, uid: Id, u: Id)
    requires u in users
    ensures uid !in PullFollowingAll(users, uid)[u].following
    ensures PullFollowingAll(users, uid)[u].(following := users[u].following) == users[u]
  {
  }

  /** Every user after one favourites `$pull` per element of `rids`. */
  function WithoutFavouritesAll(users: map<Id, User>, rids: set<Id>): (r: map<Id, User>)
    ensures r.Keys == users.Keys
    ensures forall u, x :: u in r && x in rids ==> x !in r[u].favourites
  {
    map u | u in users :: users[u].(favourites := Without(users[u].favourites, rids))
  }

  /** Before any recipe is deleted, the cascade has changed nothing. */
  lemma WithoutNoFavouritesAll(users: map<Id, User>)
    ensures WithoutFavouritesAll(users, {}) == users
  {
    forall u | u in users ensures WithoutFavouritesAll(users, {})[u] == users[u] {
      WithoutNothing(users[u].favourites);
    }
  }

  /** The favourites cascade for one more recipe extends the removed set. */
  lemma PullFavouriteAfterWithout(users: map<Id, User>, rids: set<Id>, rid: Id)
    ensures PullFavouriteAll(WithoutFavouritesAll(users, rids), rid)
         == WithoutFavouritesAll(users, rids + {rid})
  {
    var lhs := PullFavouriteAll(WithoutFavouritesAll(users, rids), rid);
    var rhs := WithoutFavouritesAll(users, rids + {rid});
    forall u | u in users ensures lhs[u] == rhs[u] {
      PullWithout(users[u].favourites, rids, rid);
    }
  }

  // ---------------------------------------------------------------------
  // One transition per route

  /** POST /followUser/:userId: flips `target` in the caller's `following`
      and answers with the target's document, read after the update. */
  function FollowUser(db: Db, caller: Id, target: Id): (r: Step<Option<User>>)
    requires caller in db.users
    ensures r.db.users.Keys == db.users.Keys && r.db.recipes == db.recipes
    ensures target in r.db.users[caller].following <==> target !in db.users[caller].following
    ensures target !in db.users[caller].following ==>
              r.db.users[caller].following == db.users[caller].following + [target]
    ensures forall v :: v in r.db.users[caller].following && v != target ==> v in db.users[caller].following
    ensures forall v :: v in db.users[caller].following && v != target ==> v in r.db.users[caller].following
    ensures r.db.users[caller] == db.users[caller].(following := r.db.users[caller].following)
    ensures forall u :: u in db.users && u != caller ==> r.db.users[u] == db.users[u]
    ensures r.reply == Lookup(r.db.users, target)
  {
    var me := db.users[caller];
    var users := db.users[caller := me.(following := Toggle(me.following, target))];
    Step(Lookup(users, target), db.(users := users))
  }

  /** POST /favouriteRecipe/:recipeId: flips `rid` in the caller's
      `favourites` (whether or not the recipe exists) and redirects to it. */
  function FavouriteRecipe(db: Db, caller: Id, rid: Id): (r: Step<Id>)
    requires caller in db.users
    ensures r.db.users.Keys == db.users.Keys && r.db.recipes == db.recipes
    ensures rid in r.db.users[caller].favourites <==> rid !in db.users[caller].favourites
    ensures rid !in db.users[caller].favourites ==>
              r.db.users[caller].favourites == db.users[caller].favourites + [rid]
    ensures forall x :: x in r.db.users[caller].favourites && x != rid ==> x in db.users[caller].favourites
    ensures forall x :: x in db.users[caller].favourites && x != rid ==> x in r.db.users[caller].favourites
    ensures r.db.users[caller] == db.users[caller].(favourites := r.db.users[caller].favourites)
    ensures forall u :: u in db.users && u != caller ==> r.db.users[u] == db.users[u]
    ensures r.reply == rid
  {
    var me := db.users[caller];
    Step(rid, db.(users := db.users[caller := me.(favourites := Toggle(me.favourites, rid))]))
  }

  /** POST /newRecipe: creates the recipe under the id the database hands
      out, with the caller as creator, then pushes the id onto the caller's
      `recipes`; answers with a redirect to the new id. */
  function NewRecipe(db: Db, caller: Id, newId: Id, name: string, country: string,
                     ingredients: seq<string>, preparation: string): (r: Step<Id>)
    requires caller in db.users && newId !in db.recipes
    ensures r.reply == newId
    ensures r.db.users.Keys == db.users.Keys
    ensures r.db.recipes.Keys == db.recipes.Keys + {newId}
    ensures r.db.recipes[newId] == Recipe(name, country, ingredients, preparation, caller)
    ensures forall x :: x in db.recipes ==> r.db.recipes[x] == db.recipes[x]
    ensures r.db.users[caller] == db.users[caller].(recipes := db.users[caller].recipes + [newId])
    ensures forall u :: u in db.users && u != caller ==> r.db.users[u] == db.users[u]
  {
    var me := db.users[caller];
    Step(newId, Db(db.users[caller := me.(recipes := me.recipes + [newId])],
                   db.recipes[newId := Recipe(name, country, ingredients, preparation, caller)]))
  }

  /** POST /updateRecipe/:recipeId: behind the ownership gate, replaces the
      four editable fields and nothing else. */
  function UpdateRecipe(db: Db, caller: Id, rid: Id, name: string, country: string,
                        ingredients: seq<string>, preparation: string): (r: Step<Gated<Id>>)
    ensures r.reply.Allowed? <==> IsOwner(db, caller, rid)
    ensures !IsOwner(db, caller, rid) ==> r == Step(Denied(NotAllowedMessage), db)
    ensures IsOwner(db, caller, rid) ==>
              && r.reply.value == rid
              && r.db.users == db.users
              && r.db.recipes.Keys == db.recipes.Keys
              && r.db.recipes[rid] == Recipe(name, country, ingredients, preparation, caller)
              && (forall x :: x in db.recipes && x != rid ==> r.db.recipes[x] == db.recipes[x])
  {
    if !IsOwner(db, caller, rid) then Step(Denied(NotAllowedMessage), db)
    else
      var old_ := db.recipes[rid];
      var updated := old_.(name := name, country := country, ingredients := ingredients,
                           preparation := preparation);
      Step(Allowed(rid), db.(recipes := db.recipes[rid := updated]))
  }

  /** DELETE /deleteRecipe/:recipeId: behind the ownership gate, deletes the
      recipe, pulls it from the caller's `recipes` and from every user's
      `favourites`, and answers with the deleted document. */
  function DeleteRecipe(db: Db, caller: Id, rid: Id): (r: Step<Gated<Recipe>>)
    requires caller in db.users
    ensures r.reply.Allowed? <==> IsOwner(db, caller, rid)
    ensures !IsOwner(db, caller, rid) ==> r == Step(Denied(NotAllowedMessage), db)
    ensures IsOwner(db, caller, rid) ==>
              && r.reply.value == db.recipes[rid]
              && r.db.recipes == db.recipes - {rid}
              && r.db.users.Keys == db.users.Keys
              && rid !in r.db.users[caller].recipes
              && (forall u :: u in r.db.users ==> rid !in r.db.users[u].favourites)
  {
    if !IsOwner(db, caller, rid) then Step(Denied(NotAllowedMessage), db)
    else
      var me := db.users[caller];
      var unlinked := db.users[caller := me.(recipes := Pull(me.recipes, rid))];
      Step(Allowed(db.recipes[rid]), Db(PullFavouriteAll(unlinked, rid), db.recipes - {rid}))
  }

  /** What DeleteRecipe leaves of each user besides the pulled id. */
  lemma DeleteRecipeFrame(db: Db, caller: Id, rid: Id)
    requires caller in db.users && IsOwner(db, caller, rid)
    ensures forall u :: u in db.users ==>
              var before, after := db.users[u], DeleteRecipe(db, caller, rid).db.users[u];
              && after.username == before.username
              && after.password == before.password
              && after.following == before.following
              && after.favourites == Pull(before.favourites, rid)
              && after.recipes == (if u == caller then Pull(before.recipes, rid) else before.recipes)
  {
  }

  /** PUT /updateUser: rejects a missing username or password, then a
      password shorter than eight characters; otherwise stores the new
      username and the hashed password and keeps the three id lists. */
  function UpdateUser(db: Db, caller: Id, username: Option<string>, password: Option<string>,
                      hash: string -> string): (r: Step<UpdateUserOutcome>)
    requires caller in db.users
    ensures r.reply == Updated <==>
              Truthy(username) && Truthy(password) && |password.value| >= MinPasswordLength
    ensures !Truthy(username) || !Truthy(password) ==> r.reply == Rejected(MissingCredentialsMessage)
    ensures Truthy(username) && Truthy(password) && |password.value| < MinPasswordLength ==>
              r.reply == Rejected(ShortPasswordMessage)
    ensures r.reply != Updated ==> r.db == db
    ensures r.reply == Updated ==>
              && r.db.recipes == db.recipes
              && r.db.users.Keys == db.users.Keys
              && (forall u :: u in db.users && u != caller ==> r.db.users[u] == db.users[u])
              && r.db.users[caller].username == username.value
              && r.db.users[caller].password == hash(password.value)
              && r.db.users[caller].recipes == db.users[caller].recipes
              && r.db.users[caller].favourites == db.users[caller].favourites
              && r.db.users[caller].following == db.users[caller].following
  {
    if !Truthy(username) || !Truthy(password) then Step(Rejected(MissingCredentialsMessage), db)
    else if |password.value| < MinPasswordLength then Step(Rejected(ShortPasswordMessage), db)
    else
      var me := db.users[caller];
      var updated := User(username.value, hash(password.value), me.recipes, me.favourites, me.following);
      Step(Updated, db.(users := db.users[caller := updated]))
  }

  /** DELETE /deleteUser: deletes the caller, pulls the caller from every
      remaining user's `following`, and deletes each recipe the deleted
      document lists, pulling it from every remaining user's `favourites`. */
  function DeleteUser(db: Db, caller: Id): (r: Db)
    requires caller in db.users
    ensures r.users.Keys == db.users.Keys - {caller}
    ensures r.recipes.Keys == db.recipes.Keys - Elems(db.users[caller].recipes)
  {
    var owned := Elems(db.users[caller].recipes);
    Db(WithoutFavouritesAll(PullFollowingAll(db.users - {caller}, caller), owned),
       db.recipes - owned)
  }

  /** After DeleteUser the user is gone and no reference to it or to the
      recipes its document listed remains; the other recipes are untouched. */
  lemma DeleteUserCascades(db: Db, caller: Id)
    requires caller in db.users
    ensures var r := DeleteUser(db, caller);
            && r.users.Keys == db.users.Keys - {caller}
            && (forall u :: u in r.users ==> caller !in r.users[u].following)
            && (forall x :: x in db.users[caller].recipes ==> x !in r.recipes)
            && (forall u, x :: u in r.users && x in db.users[caller].recipes ==> x !in r.users[u].favourites)
            && r.recipes.Keys == db.recipes.Keys - Elems(db.users[caller].recipes)
            && (forall x :: x in r.recipes ==> r.recipes[x] == db.recipes[x])
  {
  }

  /** What DeleteUser leaves of each remaining user besides the removed ids. */
  lemma DeleteUserFrame(db: Db, caller: Id)
    requires caller in db.users
    ensures forall u :: u in DeleteUser(db, caller).users ==>
              var before, after := db.users[u], DeleteUser(db, caller).users[u];
              && after.username == before.username
              && after.password == before.password
              && after.recipes == before.recipes
              && after.following == Pull(before.following, caller)
              && after.favourites == Without(before.favourites, Elems(db.users[caller].recipes))
  {
  }

  // ---------------------------------------------------------------------
  // The invariants across the routes

  /** Both toggles only touch `following` and `favourites`, so I1 holds on. */
  lemma TogglesKeepLinked(db: Db, caller: Id, target: Id)
    requires caller in db.users && Linked(db)
    ensures Linked(FollowUser(db, caller, target).db)
    ensures Linked(FavouriteRecipe(db, caller, target).db)
  {
  }

  /** The toggles push the requested id unchecked, so one follow of a missing
      user, or one favourite of a missing recipe, breaks I3 or I2. */
  lemma TogglesCanDangle(db: Db, caller: Id, target: Id)
    requires caller in db.users && NoDangling(db)
    requires target !in db.users
    ensures !NoDangling(FollowUser(db, caller, target).db)
    ensures target !in db.recipes ==> !NoDangling(FavouriteRecipe(db, caller, target).db)
  {
    var f := FollowUser(db, caller, target).db;
    assert target in f.users[caller].following && target !in f.users;
    if target !in db.recipes {
      var g := FavouriteRecipe(db, caller, target).db;
      assert target in g.users[caller].favourites;
    }
  }

  /** Creation links the new recipe to its creator exactly once and keeps
      both invariants. */
  lemma NewRecipeLinksOnce(db: Db, caller: Id, newId: Id, name: string, country: string,
                           ingredients: seq<string>, preparation: string)
    requires caller in db.users && newId !in db.recipes && Linked(db)
    ensures var r := NewRecipe(db, caller, newId, name, country, ingredients, preparation).db;
            && multiset(r.users[caller].recipes)[newId] == 1
            && r.recipes[newId].creator == caller
            && Linked(r)
            && (NoDangling(db) ==> NoDangling(r))
  {
    var r := NewRecipe(db, caller, newId, name, country, ingredients, preparation).db;
    var mine := db.users[caller].recipes;
    assert newId !in mine;
    var counted: multiset<Id> := multiset(mine);
    assert counted[newId] == 0;
    forall u, x | u in r.users && x in r.users[u].recipes
      ensures x in r.recipes && r.recipes[x].creator == u
    {
      if u == caller && x != newId {
        assert x in mine;
      }
    }
  }

  /** An owner's update keeps the recipe's creator and both invariants. */
  lemma UpdateRecipeKeepsCreator(db: Db, caller: Id, rid: Id, name: string, country: string,
                                 ingredients: seq<string>, preparation: string)
    requires rid in db.recipes
    ensures var r := UpdateRecipe(db, caller, rid, name, country, ingredients, preparation).db;
            && r.recipes[rid].creator == db.recipes[rid].creator
            && (Linked(db) ==> Linked(r))
            && (NoDangling(db) ==> NoDangling(r))
  {
  }

  /** Deleting a recipe keeps I1 and I2/I3: the id leaves its creator's list
      and every favourites list, and no other list can hold it. */
  lemma DeleteRecipeKeepsInvariants(db: Db, caller: Id, rid: Id)
    requires caller in db.users && Linked(db)
    ensures Linked(DeleteRecipe(db, caller, rid).db)
    ensures NoDangling(db) ==> NoDangling(DeleteRecipe(db, caller, rid).db)
  {
    if IsOwner(db, caller, rid) {
      DeleteRecipeFrame(db, caller, rid);
      DeleteRecipeKeepsLinked(db, caller, rid);
      if NoDangling(db) {
        DeleteRecipeKeepsFavourites(db, caller, rid);
      }
    }
  }

  /** The I1 half: every remaining listed recipe is still there. */
  lemma DeleteRecipeKeepsLinked(db: Db, caller: Id, rid: Id)
    requires caller in db.users && Linked(db) && IsOwner(db, caller, rid)
    ensures Linked(DeleteRecipe(db, caller, rid).db)
  {
    var r := DeleteRecipe(db, caller, rid).db;
    DeleteRecipeFrame(db, caller, rid);
    forall u, x | u in r.users && x in r.users[u].recipes
      ensures x in r.recipes && r.recipes[x].creator == u
    {
      assert x in db.users[u].recipes;
    }
  }

  /** The I2 half: every remaining favourite is still there. I3 is
      untouched, since no user is removed and no `following` changes. */
  lemma DeleteRecipeKeepsFavourites(db: Db, caller: Id, rid: Id)
    requires caller in db.users && NoDangling(db) && IsOwner(db, caller, rid)
    ensures NoDangling(DeleteRecipe(db, caller, rid).db)
  {
    var r := DeleteRecipe(db, caller, rid).db;
    DeleteRecipeFrame(db, caller, rid);
    forall u, x | u in r.users && x in r.users[u].favourites
      ensures x in r.recipes
    {
      assert x in db.users[u].favourites;
    }
  }

  /** Changing the credentials touches no id list, so both invariants hold on. */
  lemma UpdateUserKeepsInvariants(db: Db, caller: Id, username: Option<string>,
                                  password: Option<string>, hash: string -> string)
    requires caller in db.users
    ensures Linked(db) ==> Linked(UpdateUser(db, caller, username, password, hash).db)
    ensures NoDangling(db) ==> NoDangling(UpdateUser(db, caller, username, password, hash).db)
  {
  }

  /** A remaining user's recipe survives the deletion of another user,
      because that user created it. */
  lemma DeleteUserKeepsOthersRecipe(db: Db, caller: Id, u: Id, x: Id)
    requires caller in db.users && Linked(db)
    requires u in db.users && u != caller && x in db.users[u].recipes
    ensures x !in Elems(db.users[caller].recipes)
    ensures x in db.recipes && db.recipes[x].creator == u
  {
    assert forall y :: y in db.users[caller].recipes ==> db.recipes[y].creator == caller;
  }

  /** A remaining user's `recipes` list is not touched by the deletion. */
  lemma DeleteUserKeepsRecipeList(db: Db, caller: Id, u: Id)
    requires caller in db.users && u in DeleteUser(db, caller).users
    ensures u in db.users && u != caller
    ensures DeleteUser(db, caller).users[u].recipes == db.users[u].recipes
  {
    var unfollowed := PullFollowingAll(db.users - {caller}, caller);
    assert unfollowed[u].recipes == db.users[u].recipes;
  }

  /** I1 survives any removal of users other than `caller` and of the
      recipes `caller` listed, as long as the remaining `recipes` lists are
      unchanged: a remaining user's recipes were created by that user, so
      none of them is among the removed ones. */
  lemma LinkedAfterRemoval(db: Db, caller: Id, r: Db)
    requires caller in db.users && Linked(db)
    requires forall u :: u in r.users ==> u in db.users && u != caller
    requires forall u :: u in r.users ==> r.users[u].recipes == db.users[u].recipes
    requires r.recipes == db.recipes - Elems(db.users[caller].recipes)
    ensures Linked(r)
  {
    forall u, x | u in r.users && x in r.users[u].recipes
      ensures x in r.recipes && r.recipes[x].creator == u
    {
      DeleteUserKeepsOthersRecipe(db, caller, u, x);
    }
  }

  /** Deleting a user keeps I1. */
  lemma DeleteUserKeepsLinked(db: Db, caller: Id)
    requires caller in db.users && Linked(db)
    ensures Linked(DeleteUser(db, caller))
  {
    var r := DeleteUser(db, caller);
    forall u | u in r.users
      ensures u in db.users && u != caller
      ensures r.users[u].recipes == db.users[u].recipes
    {
      DeleteUserKeepsRecipeList(db, caller, u);
    }
    LinkedAfterRemoval(db, caller, r);
  }

  /** Deleting a user keeps I2/I3: the deleted user and its recipes leave
      every list that remains. */
  lemma DeleteUserKeepsNoDangling(db: Db, caller: Id)
    requires caller in db.users && NoDangling(db)
    ensures NoDangling(DeleteUser(db, caller))
  {
    var r := DeleteUser(db, caller);
    var owned := Elems(db.users[caller].recipes);
    forall u, x | u in r.users && x in r.users[u].favourites
      ensures x in r.recipes
    {
      assert r.users[u].favourites == Without(db.users[u].favourites, owned);
      assert x in db.users[u].favourites;
    }
    forall u, v | u in r.users && v in r.users[u].following
      ensures v in r.users
    {
      assert r.users[u].following == Pull(db.users[u].following, caller);
      assert v in db.users[u].following;
    }
  }

  // ---------------------------------------------------------------------
  // Toggling twice

  /** Following the same user twice restores the caller's follow set; when
      the target was not followed, it restores every collection exactly. */
  lemma FollowUserTwice(db: Db, caller: Id, target: Id)
    requires caller in db.users
    ensures var once := FollowUser(db, caller, target).db;
            var twice := FollowUser(once, caller, target).db;
            && (forall v :: v in twice.users[caller].following <==> v in db.users[caller].following)
            && (target !in db.users[caller].following ==> twice == db)
  {
    var once := FollowUser(db, caller, target).db;
    var twice := FollowUser(once, caller, target).db;
    ToggleTwiceMembership(db.users[caller].following, target);
    if target !in db.users[caller].following {
      ToggleTwiceFromAbsent(db.users[caller].following, target);
      assert twice.users[caller] == db.users[caller];
      assert twice.users == db.users;
    }
  }

  /** Favouriting the same recipe twice restores the caller's favourites;
      when it was not a favourite, it restores every collection exactly. */
  lemma FavouriteRecipeTwice(db: Db, caller: Id, rid: Id)
    requires caller in db.users
    ensures var once := FavouriteRecipe(db, caller, rid).db;
            var twice := FavouriteRecipe(once, caller, rid).db;
            && (forall x :: x in twice.users[caller].favourites <==> x in db.users[caller].favourites)
            && (rid !in db.users[caller].favourites ==> twice == db)
  {
    var once := FavouriteRecipe(db, caller, rid).db;
    var twice := FavouriteRecipe(once, caller, rid).db;
    ToggleTwiceMembership(db.users[caller].favourites, rid);
    if rid !in db.users[caller].favourites {
      ToggleTwiceFromAbsent(db.users[caller].favourites, rid);
      assert twice.users[caller] == db.users[caller];
      assert twice.users == db.users;
    }
  }

  // ---------------------------------------------------------------------
  // The favourites cascade as written

  /** `favourites.find(f => toString(f) == toString(id))` as the routes
      write it: the global `toString` ignores its argument, so both sides are
      the same string and the first element, if any, is the match. */
  function FindWithGlobalToString(favourites: seq<Id>, id: Id): (r: Option<Id>)
    ensures r.Some? <==> favourites != []
  {
    if favourites == [] then None else Some(favourites[0])
  }

  /** Issuing the `$pull` whenever the list is non-empty ends in the same
      list as issuing it only when the id is really there. */
  lemma GlobalToStringHarmless(favourites: seq<Id>, id: Id)
    ensures (if FindWithGlobalToString(favourites, id).Some? then Pull(favourites, id) else favourites)
         == (if id in favourites then Pull(favourites, id) else favourites)
  {
    if id !in favourites {
      PullAbsent(favourites, id);
    }
  }
}
