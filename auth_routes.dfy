// The refresh-token rules of backend/routers/auth_routes.py: issuing
// tokens (with the admin promotion of backend/auth.py:106-109), signup,
// refresh-token rotation, logout and password reset. The settings are a
// value, random tokens, the autoincremented user id and password hashes
// are parameters, and the clock is `now`, in seconds. The access token is
// represented by the subject it is signed for.
module AuthRoutes {
  import opened Wrappers
  import opened Text
  import opened Http
  import opened AuthDb
  import opened AuthFlows

  /** `ADMIN_EMAILS` as `admin_email_list` gives it, and `REFRESH_TOKEN_EXPIRE_DAYS`. */
  datatype AuthSettings = AuthSettings(adminEmails: seq<string>, refreshTokenDays: int)

  const SecondsPerDay := 24 * 60 * 60
  const VerificationTtlMinutes := 60 * 24

  /** `Token`: the access token's subject, the raw refresh token, its type and the user. */
  datatype TokenResponse = TokenResponse(accessSubject: int, refreshToken: string, tokenType: string, user: User)

  // ---------------------------------------------------------------------
  // Issuing tokens
  // ---------------------------------------------------------------------

  /** The two stored role names. */
  const AdminRole: string := "admin"
  const UserRole: string := "user"

  /** The role names differ, and each is already trimmed and lower-case. */
  lemma RoleNamesDiffer()
    ensures AdminRole != UserRole
  {
    assert |AdminRole| == 5 && |UserRole| == 4;
  }

  lemma AdminRoleIsPlain()
    ensures Lower(Trim(AdminRole)) == AdminRole
  {
    assert forall i :: 0 <= i < |AdminRole| ==> IsLowerAlpha(AdminRole[i]);
    PlainLowerWord(AdminRole);
  }

  lemma UserRoleIsPlain()
    ensures Lower(Trim(UserRole)) == UserRole
  {
    assert forall i :: 0 <= i < |UserRole| ==> IsLowerAlpha(UserRole[i]);
    PlainLowerWord(UserRole);
  }

  /** `is_admin_user`: the stored role is admin, or the e-mail address is on the admin list. */
  predicate IsAdminUser(user: User, adminEmails: seq<string>)
    ensures adminEmails == [] ==> (IsAdminUser(user, adminEmails) <==> Lower(Trim(user.role)) == AdminRole)
  {
    Lower(Trim(user.role)) == AdminRole || Lower(Trim(user.email)) in adminEmails
  }

  /**
   * The user after the promotion step of `issue_auth_tokens`: an admin user
   * whose role is not exactly "admin" gets that role, and no other column
   * changes.
   */
  function Promoted(user: User, adminEmails: seq<string>): (u: User)
    ensures u == user.(role := u.role)
    ensures u.role == AdminRole <==> IsAdminUser(user, adminEmails) || user.role == AdminRole
    ensures !IsAdminUser(user, adminEmails) ==> u == user
  {
    if IsAdminUser(user, adminEmails) && user.role != AdminRole then user.(role := AdminRole) else user
  }

  /** Promotion is idempotent in effect: the promoted user is an admin exactly when the original was. */
  lemma PromotedKeepsAdmin(user: User, adminEmails: seq<string>)
    ensures IsAdminUser(Promoted(user, adminEmails), adminEmails) <==> IsAdminUser(user, adminEmails)
    ensures Promoted(Promoted(user, adminEmails), adminEmails) == Promoted(user, adminEmails)
  {
    if IsAdminUser(user, adminEmails) && user.role != AdminRole {
      AdminRoleIsAdmin(Promoted(user, adminEmails), adminEmails);
    }
  }

  /** A user stored with the role "admin" is an admin. */
  lemma AdminRoleIsAdmin(user: User, adminEmails: seq<string>)
    requires user.role == AdminRole
    ensures IsAdminUser(user, adminEmails)
  {
    AdminRoleIsPlain();
  }

  /** The refresh token row inserted for a user, live for the configured number of days. */
  function NewRefreshRow(userId: int, rawToken: string, now: int, days: int): RefreshToken
  {
    RefreshToken(userId, rawToken, now + days * SecondsPerDay, false)
  }

  /**
   * `issue_auth_tokens`: writes the promoted user back, inserts a refresh
   * token row and returns the tokens for the promoted user.
   */
  method IssueAuthTokens(db: Database, user: User, settings: AuthSettings, rawRefresh: string, now: int)
    returns (response: TokenResponse)
    requires db.Valid()
    requires user in db.users
    requires FreshRefresh(db.refreshTokens, rawRefresh)
    modifies db
    ensures db.Valid()
    ensures response == TokenResponse(user.id, rawRefresh, "bearer", Promoted(user, settings.adminEmails))
    ensures db.users == WithUser(old(db.users), Promoted(user, settings.adminEmails))
    ensures db.refreshTokens == old(db.refreshTokens) + [NewRefreshRow(user.id, rawRefresh, now, settings.refreshTokenDays)]
    ensures db.authTokens == old(db.authTokens)
  {
    var current := Promoted(user, settings.adminEmails);
    KeepsEmail(db.users, user, current);
    db.users := WithUser(db.users, current);
    db.refreshTokens := db.refreshTokens + [NewRefreshRow(user.id, rawRefresh, now, settings.refreshTokenDays)];
    response := TokenResponse(user.id, rawRefresh, "bearer", current);
  }

  /** Writing back a changed copy of a stored user with its e-mail address keeps the keys unique. */
  lemma KeepsEmail(users: seq<User>, user: User, changed: User)
    requires UniqueIds(users) && UniqueEmails(users)
    requires user in users && changed.id == user.id && changed.email == user.email
    ensures UniqueIds(WithUser(users, changed)) && UniqueEmails(WithUser(users, changed))
  {
    forall i | 0 <= i < |users| && users[i].id == changed.id
      ensures users[i].email == changed.email
    {
      var j :| 0 <= j < |users| && users[j] == user;
      assert !(i < j) && !(j < i);
    }
    WithUserKeepsKeys(users, changed);
  }

  /** A user the token flow returns is the row stored under that id. */
  lemma StoredUser(users: seq<User>, id: int)
    requires UserById(users, id).Some?
    ensures UserById(users, id).value in users
  {
  }

  // ---------------------------------------------------------------------
  // Signup
  // ---------------------------------------------------------------------

  /** The role signup stores: admin exactly for a normalised address on the admin list. */
  function SignupRole(email: string, adminEmails: seq<string>): (role: string)
    ensures role == AdminRole <==> Lower(Trim(email)) in adminEmails
    ensures role == AdminRole || role == UserRole
  {
    if Lower(Trim(email)) in adminEmails then AdminRole else UserRole
  }

  /** The row signup inserts: unverified, with the role of `SignupRole`. */
  function NewUser(id: int, email: string, name: string, passwordHash: string, adminEmails: seq<string>): User
  {
    User(id, email, name, passwordHash, false, SignupRole(email, adminEmails))
  }

  /** The new user needs no promotion: its role already says whether it is an admin. */
  lemma NewUserNotPromoted(id: int, email: string, name: string, passwordHash: string, adminEmails: seq<string>)
    ensures var u := NewUser(id, email, name, passwordHash, adminEmails);
      Promoted(u, adminEmails) == u && (u.role == AdminRole <==> IsAdminUser(u, adminEmails))
  {
    var u := NewUser(id, email, name, passwordHash, adminEmails);
    RoleDecidesAdmin(u, adminEmails);
  }

  /** A user whose role is admin, or user with an address off the list, needs no promotion. */
  lemma RoleDecidesAdmin(u: User, adminEmails: seq<string>)
    requires u.role == AdminRole || (u.role == UserRole && Lower(Trim(u.email)) !in adminEmails)
    ensures Promoted(u, adminEmails) == u && (u.role == AdminRole <==> IsAdminUser(u, adminEmails))
  {
    if u.role == AdminRole {
      AdminRoleIsAdmin(u, adminEmails);
    } else {
      PlainUserNotAdmin(u, adminEmails);
    }
  }

  lemma PlainUserNotAdmin(u: User, adminEmails: seq<string>)
    requires u.role == UserRole && Lower(Trim(u.email)) !in adminEmails
    ensures !IsAdminUser(u, adminEmails)
  {
    UserRoleIsPlain();
    RoleNamesDiffer();
  }

  /** Some stored user has exactly this address (`User.email == user_data.email`). */
  predicate EmailTaken(users: seq<User>, email: string)
  {
    exists i :: 0 <= i < |users| && users[i].email == email
  }

  /**
   * `signup`: a taken address is refused with 400; otherwise the user is
   * inserted, an e-mail verification token is issued for a day, and the
   * tokens of `issue_auth_tokens` are returned.
   */
  method Signup(db: Database, email: string, name: string, passwordHash: string, settings: AuthSettings,
                newId: int, verifyToken: string, rawRefresh: string, now: int)
    returns (r: Result<TokenResponse, HttpError>)
    requires db.Valid()
    requires forall i :: 0 <= i < |db.users| ==> db.users[i].id != newId
    requires FreshToken(db.authTokens, verifyToken) && FreshRefresh(db.refreshTokens, rawRefresh)
    modifies db
    ensures db.Valid()
    ensures r.Err? <==> EmailTaken(old(db.users), email)
    ensures r.Err? ==> r.error == HttpError(BadRequest, "Email already registered")
    ensures r.Err? ==> db.users == old(db.users) && db.authTokens == old(db.authTokens) && db.refreshTokens == old(db.refreshTokens)
    ensures r.Ok? ==>
      var created := NewUser(newId, email, name, passwordHash, settings.adminEmails);
      && r.value == TokenResponse(newId, rawRefresh, "bearer", created)
      && db.users == old(db.users) + [created]
      && db.authTokens == Issue(old(db.authTokens), newId, EmailVerifyPurpose, VerificationTtlMinutes, verifyToken, now)
      && db.refreshTokens == old(db.refreshTokens) + [NewRefreshRow(newId, rawRefresh, now, settings.refreshTokenDays)]
  {
    if exists i :: 0 <= i < |db.users| && db.users[i].email == email {
      return Err(HttpError(BadRequest, "Email already registered"));
    }
    var created := NewUser(newId, email, name, passwordHash, settings.adminEmails);
    var before := db.users;
    db.users := db.users + [created];
    assert WithUser(db.users, created) == db.users by {
      assert forall i :: 0 <= i < |before| ==> db.users[i].id != created.id;
    }
    var _ := IssueOneTimeToken(db, created, EmailVerifyPurpose, VerificationTtlMinutes, verifyToken, now);
    NewUserNotPromoted(newId, email, name, passwordHash, settings.adminEmails);
    var response := IssueAuthTokens(db, created, settings, rawRefresh, now);
    return Ok(response);
  }

  // ---------------------------------------------------------------------
  // Refresh
  // ---------------------------------------------------------------------

  /** A row the refresh query selects: the presented token's hash, not revoked. */
  predicate Unrevoked(t: RefreshToken, tokenHash: string)
  {
    t.tokenHash == tokenHash && !t.revoked
  }

  /** The first row the refresh query selects. */
  function FirstUnrevoked(rows: seq<RefreshToken>, tokenHash: string): (k: Option<nat>)
    ensures k.Some? ==> k.value < |rows| && Unrevoked(rows[k.value], tokenHash)
    ensures k.Some? ==> forall j :: 0 <= j < k.value ==> !Unrevoked(rows[j], tokenHash)
    ensures k.None? <==> forall j :: 0 <= j < |rows| ==> !Unrevoked(rows[j], tokenHash)
    decreases |rows|
  {
    if rows == [] then None
    else if Unrevoked(rows[0], tokenHash) then Some(0)
    else match FirstUnrevoked(rows[1..], tokenHash)
      case None => None
      case Some(k) => Some(k + 1)
  }

  /** Which branch of `refresh_access_token` a presented token takes, with the selected row. */
  datatype RefreshCheck = Invalid | Expired(k: nat) | UserMissing(k: nat) | Accepted(k: nat, user: User)

  /**
   * The checks of `refresh_access_token` in order: no unrevoked row, an
   * expired row, a row whose user is gone, or a row that is accepted.
   */
  function CheckRefresh(rows: seq<RefreshToken>, users: seq<User>, presented: string, now: int): (c: RefreshCheck)
    ensures c.Invalid? <==> forall j :: 0 <= j < |rows| ==> !Unrevoked(rows[j], presented)
    ensures !c.Invalid? ==> c.k < |rows| && Unrevoked(rows[c.k], presented)
    ensures c.Expired? ==> rows[c.k].expiresAt <= now
    ensures c.UserMissing? ==> now < rows[c.k].expiresAt && UserById(users, rows[c.k].userId).None?
    ensures c.Accepted? ==> now < rows[c.k].expiresAt && UserById(users, rows[c.k].userId) == Some(c.user)
  {
    match FirstUnrevoked(rows, presented)
    case None => Invalid
    case Some(k) =>
      if rows[k].expiresAt <= now then Expired(k)
      else match UserById(users, rows[k].userId)
        case None => UserMissing(k)
        case Some(user) => Accepted(k, user)
  }

  /** Row `k` marked revoked. */
  function Revoke(rows: seq<RefreshToken>, k: nat): (r: seq<RefreshToken>)
    requires k < |rows|
    ensures |r| == |rows| && r[k].revoked && r[k].(revoked := rows[k].revoked) == rows[k]
    ensures forall i :: 0 <= i < |rows| && i != k ==> r[i] == rows[i]
  {
    rows[k := rows[k].(revoked := true)]
  }

  /**
   * `refresh_access_token`: 401 for an unknown or revoked token; an expired
   * token or one whose user is gone is revoked and refused with 401; an
   * accepted token is revoked and a new pair is issued.
   */
  method Refresh(db: Database, settings: AuthSettings, presented: string, rawRefresh: string, now: int)
    returns (r: Result<TokenResponse, HttpError>)
    requires db.Valid()
    requires FreshRefresh(db.refreshTokens, rawRefresh)
    modifies db
    ensures db.Valid()
    ensures db.authTokens == old(db.authTokens)
    ensures r.Err? ==> r.error.status == Unauthorized
    ensures match CheckRefresh(old(db.refreshTokens), old(db.users), presented, now)
      case Invalid =>
        r == Err(HttpError(Unauthorized, "Invalid refresh token"))
        && db.refreshTokens == old(db.refreshTokens) && db.users == old(db.users)
      case Expired(k) =>
        r == Err(HttpError(Unauthorized, "Refresh token expired"))
        && db.refreshTokens == Revoke(old(db.refreshTokens), k) && db.users == old(db.users)
      case UserMissing(k) =>
        r == Err(HttpError(Unauthorized, "User not found"))
        && db.refreshTokens == Revoke(old(db.refreshTokens), k) && db.users == old(db.users)
      case Accepted(k, user) =>
        var current := Promoted(user, settings.adminEmails);
        r == Ok(TokenResponse(user.id, rawRefresh, "bearer", current))
        && db.refreshTokens == Revoke(old(db.refreshTokens), k) + [NewRefreshRow(user.id, rawRefresh, now, settings.refreshTokenDays)]
        && db.users == WithUser(old(db.users), current)
  {
    var found := FirstUnrevoked(db.refreshTokens, presented);
    if found.None? {
      return Err(HttpError(Unauthorized, "Invalid refresh token"));
    }
    var k := found.value;
    var row := db.refreshTokens[k];
    RevokeKeepsHashes(db.refreshTokens, k);
    if row.expiresAt <= now {
      db.refreshTokens := Revoke(db.refreshTokens, k);
      return Err(HttpError(Unauthorized, "Refresh token expired"));
    }
    var user := UserById(db.users, row.userId);
    if user.None? {
      db.refreshTokens := Revoke(db.refreshTokens, k);
      return Err(HttpError(Unauthorized, "User not found"));
    }
    db.refreshTokens := Revoke(db.refreshTokens, k);
    var response := IssueAuthTokens(db, user.value, settings, rawRefresh, now);
    return Ok(response);
  }

  /** Revoking a row keeps the hashes, and so their uniqueness and freshness. */
  lemma RevokeKeepsHashes(rows: seq<RefreshToken>, k: nat)
    requires k < |rows|
    ensures forall i :: 0 <= i < |rows| ==> Revoke(rows, k)[i].tokenHash == rows[i].tokenHash
    ensures UniqueRefreshHashes(rows) ==> UniqueRefreshHashes(Revoke(rows, k))
    ensures forall h :: FreshRefresh(rows, h) ==> FreshRefresh(Revoke(rows, k), h)
  {
  }

  /**
   * A refresh token is never reusable: once the selected row is revoked
   * (whatever rows with other hashes are added), presenting the same token
   * again is refused as invalid.
   */
  lemma {:induction false} RefreshNotReusable(rows: seq<RefreshToken>, users: seq<User>, presented: string, now: int,
                                              extra: seq<RefreshToken>, laterUsers: seq<User>, later: int)
    requires UniqueRefreshHashes(rows)
    requires !CheckRefresh(rows, users, presented, now).Invalid?
    requires forall e :: e in extra ==> e.tokenHash != presented
    ensures CheckRefresh(Revoke(rows, CheckRefresh(rows, users, presented, now).k) + extra, laterUsers, presented, later).Invalid?
  {
    var k := CheckRefresh(rows, users, presented, now).k;
    var after := Revoke(rows, k) + extra;
    forall j | 0 <= j < |after|
      ensures !Unrevoked(after[j], presented)
    {
      if j >= |rows| {
        assert after[j] in extra;
      } else if j != k {
        assert after[j] == rows[j];
        assert rows[j].tokenHash != rows[k].tokenHash;
      }
    }
  }

  /** The rotation a successful refresh performs leaves the presented token refused. */
  lemma RotationRetiresPresented(rows: seq<RefreshToken>, users: seq<User>, presented: string, now: int,
                                 userId: int, rawRefresh: string, days: int, laterUsers: seq<User>, later: int)
    requires UniqueRefreshHashes(rows) && FreshRefresh(rows, rawRefresh)
    requires CheckRefresh(rows, users, presented, now).Accepted?
    ensures var k := CheckRefresh(rows, users, presented, now).k;
      CheckRefresh(Revoke(rows, k) + [NewRefreshRow(userId, rawRefresh, now, days)], laterUsers, presented, later).Invalid?
  {
    var k := CheckRefresh(rows, users, presented, now).k;
    assert rows[k].tokenHash == presented;
    RefreshNotReusable(rows, users, presented, now, [NewRefreshRow(userId, rawRefresh, now, days)], laterUsers, later);
  }

  /** The newly issued refresh token is accepted until it expires, for as long as its user exists. */
  lemma {:induction false} IssuedTokenAccepted(rows: seq<RefreshToken>, users: seq<User>, user: User, rawRefresh: string,
                                               now: int, days: int, later: int)
    requires FreshRefresh(rows, rawRefresh)
    requires UserById(users, user.id) == Some(user)
    requires later < now + days * SecondsPerDay
    ensures CheckRefresh(rows + [NewRefreshRow(user.id, rawRefresh, now, days)], users, rawRefresh, later)
      == Accepted(|rows|, user)
  {
    var after := rows + [NewRefreshRow(user.id, rawRefresh, now, days)];
    assert forall j :: 0 <= j < |rows| ==> after[j] == rows[j];
    var found := FirstUnrevoked(after, rawRefresh);
    assert Unrevoked(after[|rows|], rawRefresh);
    assert found.Some?;
    assert !(found.value < |rows|);
  }

  // ---------------------------------------------------------------------
  // Logout and password reset
  // ---------------------------------------------------------------------

  /**
   * The bulk `update({"revoked": True})` over the unrevoked rows of a user:
   * all of that user's rows end revoked, nothing else about any row changes.
   */
  function RevokeAll(rows: seq<RefreshToken>, userId: int): (r: seq<RefreshToken>)
    ensures |r| == |rows|
    ensures forall i :: 0 <= i < |r| ==> r[i].(revoked := rows[i].revoked) == rows[i]
    ensures forall i :: 0 <= i < |r| ==> (r[i].revoked <==> rows[i].revoked || rows[i].userId == userId)
    decreases |rows|
  {
    if rows == [] then []
    else
      var n := |rows| - 1;
      var last := if rows[n].userId == userId && !rows[n].revoked then rows[n].(revoked := true) else rows[n];
      RevokeAll(rows[..n], userId) + [last]
  }

  /** After the bulk revocation every refresh token of the user is refused, and others' rows are untouched. */
  lemma {:induction false} RevokeAllEndsSessions(rows: seq<RefreshToken>, userId: int, users: seq<User>, now: int, k: nat)
    requires UniqueRefreshHashes(rows)
    requires k < |rows| && rows[k].userId == userId
    ensures CheckRefresh(RevokeAll(rows, userId), users, rows[k].tokenHash, now).Invalid?
    ensures forall i :: 0 <= i < |rows| && rows[i].userId != userId ==> RevokeAll(rows, userId)[i] == rows[i]
  {
    var after := RevokeAll(rows, userId);
    forall j | 0 <= j < |after|
      ensures !Unrevoked(after[j], rows[k].tokenHash)
    {
      if j != k {
        assert after[j].tokenHash == rows[j].tokenHash;
        assert rows[j].tokenHash != rows[k].tokenHash;
      }
    }
  }

  /** A row the single-session logout selects: this user, this hash, not revoked. */
  predicate OwnLive(t: RefreshToken, userId: int, tokenHash: string)
  {
    t.userId == userId && t.tokenHash == tokenHash && !t.revoked
  }

  /** The first row the single-session logout selects. */
  function FirstOwnLive(rows: seq<RefreshToken>, userId: int, tokenHash: string): (k: Option<nat>)
    ensures k.Some? ==> k.value < |rows| && OwnLive(rows[k.value], userId, tokenHash)
    ensures k.None? <==> forall j :: 0 <= j < |rows| ==> !OwnLive(rows[j], userId, tokenHash)
    decreases |rows|
  {
    if rows == [] then None
    else if OwnLive(rows[0], userId, tokenHash) then Some(0)
    else match FirstOwnLive(rows[1..], userId, tokenHash)
      case None => None
      case Some(k) => Some(k + 1)
  }

  /**
   * The rows after a single-session logout: without a (non-empty) token
   * nothing changes; otherwise the first live row of this user with the
   * token's hash is revoked, and no row of another user ever changes.
   */
  function RevokeCurrent(rows: seq<RefreshToken>, userId: int, refreshToken: Option<string>): (r: seq<RefreshToken>)
    ensures |r| == |rows|
    ensures forall i :: 0 <= i < |rows| && rows[i].userId != userId ==> r[i] == rows[i]
    ensures refreshToken.None? || refreshToken.value == "" ==> r == rows
    ensures r != rows ==> exists k :: 0 <= k < |rows| && OwnLive(rows[k], userId, refreshToken.value) && r == Revoke(rows, k)
  {
    if refreshToken.None? || refreshToken.value == "" then rows
    else match FirstOwnLive(rows, userId, refreshToken.value)
      case None => rows
      case Some(k) => Revoke(rows, k)
  }

  /** With unique hashes, a single-session logout ends exactly the presented session of this user. */
  lemma {:induction false} LogoutEndsPresented(rows: seq<RefreshToken>, userId: int, k: nat, users: seq<User>, now: int)
    requires UniqueRefreshHashes(rows)
    requires k < |rows| && rows[k].userId == userId && rows[k].tokenHash != ""
    ensures RevokeCurrent(rows, userId, Some(rows[k].tokenHash)) == (if rows[k].revoked then rows else Revoke(rows, k))
    ensures CheckRefresh(RevokeCurrent(rows, userId, Some(rows[k].tokenHash)), users, rows[k].tokenHash, now).Invalid?
  {
    var token := rows[k].tokenHash;
    var found := FirstOwnLive(rows, userId, token);
    forall j | 0 <= j < |rows| && j != k
      ensures !Unrevoked(rows[j], token)
    {
      assert rows[j].tokenHash != rows[k].tokenHash;
    }
    if found.Some? {
      assert found.value == k;
      var after := Revoke(rows, k);
      forall j | 0 <= j < |after|
        ensures !Unrevoked(after[j], token)
      {
        if j != k {
          assert after[j] == rows[j];
        }
      }
    }
  }

  /** `{"success": True, "revoked": ...}`. */
  datatype LogoutResponse = LogoutResponse(success: bool, revoked: string)

  /**
   * `logout_session`: with `all_sessions` every live token of the user is
   * revoked; otherwise at most the presented token of this user. Either way
   * it succeeds.
   */
  method Logout(db: Database, currentUser: User, allSessions: bool, refreshToken: Option<string>)
    returns (response: LogoutResponse)
    requires db.Valid()
    modifies db
    ensures db.Valid()
    ensures db.users == old(db.users) && db.authTokens == old(db.authTokens)
    ensures allSessions ==> response == LogoutResponse(true, "all") && db.refreshTokens == RevokeAll(old(db.refreshTokens), currentUser.id)
    ensures !allSessions ==>
      response == LogoutResponse(true, "current") && db.refreshTokens == RevokeCurrent(old(db.refreshTokens), currentUser.id, refreshToken)
  {
    if allSessions {
      RevokeAllKeepsHashes(db.refreshTokens, currentUser.id);
      db.refreshTokens := RevokeAll(db.refreshTokens, currentUser.id);
      return LogoutResponse(true, "all");
    }
    if refreshToken.Some? && refreshToken.value != "" {
      var found := FirstOwnLive(db.refreshTokens, currentUser.id, refreshToken.value);
      if found.Some? {
        RevokeKeepsHashes(db.refreshTokens, found.value);
        db.refreshTokens := Revoke(db.refreshTokens, found.value);
      }
    }
    return LogoutResponse(true, "current");
  }

  /** The bulk revocation keeps the hashes, and so their uniqueness. */
  lemma RevokeAllKeepsHashes(rows: seq<RefreshToken>, userId: int)
    ensures forall i :: 0 <= i < |rows| ==> RevokeAll(rows, userId)[i].tokenHash == rows[i].tokenHash
    ensures UniqueRefreshHashes(rows) ==> UniqueRefreshHashes(RevokeAll(rows, userId))
  {
  }

  /**
   * `reset_password`: the token is consumed for the reset purpose (marking
   * it used even when the reset is refused); without a user the reset is
   * refused with 400; otherwise the new password hash is stored and every
   * refresh token of the user is revoked.
   */
  method ResetPassword(db: Database, token: string, newPasswordHash: string, now: int)
    returns (r: Result<string, HttpError>)
    requires db.Valid()
    modifies db
    ensures db.Valid()
    ensures var c := Consume(old(db.authTokens), old(db.users), token, PasswordResetPurpose, now);
      && db.authTokens == c.rows
      && (c.user.None? ==>
            r == Err(HttpError(BadRequest, "Invalid or expired reset token"))
            && db.users == old(db.users) && db.refreshTokens == old(db.refreshTokens))
      && (c.user.Some? ==>
            r == Ok("Password updated successfully. Please log in again.")
            && db.users == WithUser(old(db.users), c.user.value.(hashedPassword := newPasswordHash))
            && db.refreshTokens == RevokeAll(old(db.refreshTokens), c.user.value.id))
  {
    var user := ConsumeOneTimeToken(db, token, PasswordResetPurpose, now);
    if user.None? {
      return Err(HttpError(BadRequest, "Invalid or expired reset token"));
    }
    var updated := user.value.(hashedPassword := newPasswordHash);
    StoredUser(db.users, user.value.id);
    KeepsEmail(db.users, user.value, updated);
    db.users := WithUser(db.users, updated);
    RevokeAllKeepsHashes(db.refreshTokens, user.value.id);
    db.refreshTokens := RevokeAll(db.refreshTokens, user.value.id);
    return Ok("Password updated successfully. Please log in again.");
  }
}
