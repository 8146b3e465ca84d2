/**
 * The user table: the reserved-username check of the model, the unique e-mail address and the
 * directed, non-symmetric subscription relation of a user to the users they follow.
 */
module UsersModels {
  import opened Base

  datatype User = User(id: UserId, username: string, email: string, firstName: string, lastName: string)

  /** The username the model refuses. */
  const ReservedName: string := "me"

  /** The model-level check: exactly the username "me" is refused; the comparison is case-sensitive. */
  function Clean(username: string): (r: Outcome)
    ensures r.Fail? <==> username == ReservedName
    ensures r.Fail? ==> r.error == ValidationError(ReservedUsername)
  {
    if username == ReservedName then Fail(ValidationError(ReservedUsername)) else Pass
  }

  lemma CleanIsCaseSensitive()
    ensures Clean("me").Fail?
    ensures Clean("Me").Pass? && Clean("mE").Pass? && Clean("ME").Pass?
  {
  }

  predicate UsersKeyed(users: map<UserId, User>) {
    forall k :: k in users ==> users[k].id == k
  }

  /** No two users share an e-mail address. */
  predicate EmailsUnique(users: map<UserId, User>) {
    forall a, b :: a in users && b in users && a != b ==> users[a].email != users[b].email
  }

  /** No two users share a username (the `unique=True` username of Django's `AbstractUser`). */
  predicate UsernamesUnique(users: map<UserId, User>) {
    forall a, b :: a in users && b in users && a != b ==> users[a].username != users[b].username
  }

  /** A stored user already has this username or this e-mail address. */
  predicate Taken(users: map<UserId, User>, u: User) {
    exists k :: k in users && (users[k].username == u.username || users[k].email == u.email)
  }

  /**
   * Inserting a user row: the primary key, the unique username inherited from `AbstractUser`
   * and the unique e-mail address refuse a clash.
   */
  function InsertUser(users: map<UserId, User>, u: User): (r: Option<map<UserId, User>>)
    ensures r.None? <==> (|| u.id in users
                          || (exists k :: k in users && users[k].username == u.username)
                          || (exists k :: k in users && users[k].email == u.email))
    ensures r.Some? ==> r.value.Keys == users.Keys + {u.id} && r.value[u.id] == u
    ensures r.Some? ==> forall k :: k in users ==> r.value[k] == users[k]
  {
    if u.id in users || Taken(users, u) then None
    else Some(users[u.id := u])
  }

  /** An accepted insert keeps the table keyed by id, with usernames and e-mail addresses unique. */
  lemma InsertUserKeepsEmailsUnique(users: map<UserId, User>, u: User)
    requires UsersKeyed(users) && UsernamesUnique(users) && EmailsUnique(users)
    requires InsertUser(users, u).Some?
    ensures var r := InsertUser(users, u).value;
      UsersKeyed(r) && UsernamesUnique(r) && EmailsUnique(r)
  {
  }

  /** A second user with a stored username is refused even when the e-mail address is new. */
  lemma InsertUserRefusesTakenUsername()
    ensures InsertUser(map[1 := User(1, "alice", "a@x", "A", "L")], User(2, "alice", "b@x", "B", "M")).None?
  {
    var users := map[1 := User(1, "alice", "a@x", "A", "L")];
    assert users[1].username == "alice";
  }

  /**
   * The subscription relation as its rows (follower, followed). It is directed: nothing adds the
   * reverse row, and nothing requires a user to have any subscription.
   */
  type Follows = set<(UserId, UserId)>

  /** The users `u` follows (`u.subscriptions`). */
  function Subscriptions(follows: Follows, u: UserId): (r: set<UserId>)
    ensures forall v :: v in r <==> (u, v) in follows
  {
    set p | p in follows && p.0 == u :: p.1
  }

  /** The users who follow `u` (the reverse accessor `u.subscription`). */
  function Subscribers(follows: Follows, u: UserId): (r: set<UserId>)
    ensures forall w :: w in r <==> (w, u) in follows
  {
    set p | p in follows && p.1 == u :: p.0
  }

  /** Adding a -> b makes b a subscription of a and leaves b's own subscriptions as they were. */
  lemma FollowIsNotSymmetric(follows: Follows, a: UserId, b: UserId)
    requires a != b
    ensures b in Subscriptions(follows + {(a, b)}, a)
    ensures Subscriptions(follows + {(a, b)}, b) == Subscriptions(follows, b)
  {
  }
}
