// The authentication tables of backend/models.py (users, one-time tokens
// and refresh tokens) as the rows a database session holds. Token hashes
// are stored as the raw token itself: the SHA-256 digest of
// backend/auth.py:54-55 is treated as an injective function, and the
// identity is the simplest one. Times are whole seconds.
module AuthDb {
  import opened Wrappers

  /** The columns of `User` that the authentication flows read or write. */
  datatype User = User(id: int, email: string, name: string, hashedPassword: string, emailVerified: bool, role: string)

  /** `AuthToken`: a one-time e-mail verification or password reset token. */
  datatype AuthToken = AuthToken(userId: int, tokenHash: string, purpose: string, expiresAt: int, used: bool)

  /** `RefreshToken`: one row per issued refresh token. */
  datatype RefreshToken = RefreshToken(userId: int, tokenHash: string, expiresAt: int, revoked: bool)

  /** `id` is the primary key of the users table. */
  predicate UniqueIds(users: seq<User>)
  {
    forall i, j :: 0 <= i < j < |users| ==> users[i].id != users[j].id
  }

  /** `email` is a unique column. */
  predicate UniqueEmails(users: seq<User>)
  {
    forall i, j :: 0 <= i < j < |users| ==> users[i].email != users[j].email
  }

  /** `token_hash` is a unique column of the one-time tokens. */
  predicate UniqueTokenHashes(rows: seq<AuthToken>)
  {
    forall i, j :: 0 <= i < j < |rows| ==> rows[i].tokenHash != rows[j].tokenHash
  }

  /** `token_hash` is a unique column of the refresh tokens. */
  predicate UniqueRefreshHashes(rows: seq<RefreshToken>)
  {
    forall i, j :: 0 <= i < j < |rows| ==> rows[i].tokenHash != rows[j].tokenHash
  }

  /** No one-time token row has this hash yet. */
  predicate FreshToken(rows: seq<AuthToken>, tokenHash: string)
  {
    forall i :: 0 <= i < |rows| ==> rows[i].tokenHash != tokenHash
  }

  /** No refresh token row has this hash yet. */
  predicate FreshRefresh(rows: seq<RefreshToken>, tokenHash: string)
  {
    forall i :: 0 <= i < |rows| ==> rows[i].tokenHash != tokenHash
  }

  /** `db.query(User).filter(User.id == id).first()`. */
  function UserById(users: seq<User>, id: int): (u: Option<User>)
    ensures u.Some? ==> u.value in users && u.value.id == id
    ensures u.None? <==> forall i :: 0 <= i < |users| ==> users[i].id != id
    decreases |users|
  {
    if users == [] then None
    else if users[0].id == id then Some(users[0])
    else UserById(users[1..], id)
  }

  /**
   * The users table after the row with `user`'s id was written back: that
   * row becomes `user`, every other row stays.
   */
  function WithUser(users: seq<User>, user: User): (r: seq<User>)
    ensures |r| == |users|
    ensures forall i :: 0 <= i < |users| ==> r[i].id == users[i].id
    ensures forall i :: 0 <= i < |users| && users[i].id == user.id ==> r[i] == user
    ensures forall i :: 0 <= i < |users| && users[i].id != user.id ==> r[i] == users[i]
    decreases |users|
  {
    if users == [] then []
    else [if users[0].id == user.id then user else users[0]] + WithUser(users[1..], user)
  }

  /** Writing back a row that keeps its e-mail address keeps both keys unique. */
  lemma WithUserKeepsKeys(users: seq<User>, user: User)
    requires UniqueIds(users) && UniqueEmails(users)
    requires forall i :: 0 <= i < |users| && users[i].id == user.id ==> users[i].email == user.email
    ensures UniqueIds(WithUser(users, user)) && UniqueEmails(WithUser(users, user))
  {
    var r := WithUser(users, user);
    assert forall i :: 0 <= i < |users| ==> r[i].email == users[i].email;
  }

  /** Writing back a stored row with its id and email unchanged keeps both keys unique. */
  lemma RewrittenRowKeepsKeys(users: seq<User>, stored: User, user: User)
    requires UniqueIds(users) && UniqueEmails(users)
    requires stored in users && user.id == stored.id && user.email == stored.email
    ensures UniqueIds(WithUser(users, user)) && UniqueEmails(WithUser(users, user))
  {
    var k :| 0 <= k < |users| && users[k] == stored;
    forall i | 0 <= i < |users| && users[i].id == user.id
      ensures users[i].email == user.email
    {
      assert i == k;
    }
    WithUserKeepsKeys(users, user);
  }

  /** A database session over the three tables. */
  class Database {
    var users: seq<User>
    var authTokens: seq<AuthToken>
    var refreshTokens: seq<RefreshToken>

    /** The keys the schema declares unique are unique. */
    predicate Valid()
      reads this
    {
      UniqueIds(users) && UniqueEmails(users) && UniqueTokenHashes(authTokens) && UniqueRefreshHashes(refreshTokens)
    }

    constructor (users: seq<User>)
      requires UniqueIds(users) && UniqueEmails(users)
      ensures Valid()
      ensures this.users == users && authTokens == [] && refreshTokens == []
    {
      this.users := users;
      authTokens := [];
      refreshTokens := [];
    }
  }
}
