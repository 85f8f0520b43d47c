// One-time e-mail verification and password reset tokens
// (backend/services/auth_flows.py): issuing a token retires the live
// tokens of the same user and purpose; consuming one marks it used. The
// random token is a parameter and the clock (`utcnow`) is `now`, in
// seconds.
module AuthFlows {
  import opened Wrappers
  import opened Seqs
  import opened AuthDb

  const EmailVerifyPurpose := "email_verify"
  const PasswordResetPurpose := "password_reset"

  // ---------------------------------------------------------------------
  // Issue
  // ---------------------------------------------------------------------

  /** An unused token of this user for this purpose. */
  predicate Live(t: AuthToken, userId: int, purpose: string)
  {
    t.userId == userId && t.purpose == purpose && !t.used
  }

  /**
   * The bulk `update({"used": True})` over the unused tokens of the user
   * and purpose: those become used, and nothing else about any row changes.
   */
  function RetireLive(rows: seq<AuthToken>, userId: int, purpose: string): (r: seq<AuthToken>)
    ensures |r| == |rows|
    ensures forall i :: 0 <= i < |r| ==> !Live(r[i], userId, purpose)
    ensures forall i :: 0 <= i < |r| ==> r[i].(used := rows[i].used) == rows[i]
    ensures forall i :: 0 <= i < |r| ==> (r[i].used <==> rows[i].used || (rows[i].userId == userId && rows[i].purpose == purpose))
    decreases |rows|
  {
    if rows == [] then []
    else
      var n := |rows| - 1;
      var last := if Live(rows[n], userId, purpose) then rows[n].(used := true) else rows[n];
      RetireLive(rows[..n], userId, purpose) + [last]
  }

  /**
   * The table after `issue_one_time_token`: the live tokens of the pair
   * retired, then the new unused token appended, expiring `ttlMinutes`
   * after `now`. Afterwards exactly one live token exists for the pair, the
   * new one, and the rows of other users and other purposes are untouched.
   */
  function Issue(rows: seq<AuthToken>, userId: int, purpose: string, ttlMinutes: int, rawToken: string, now: int)
    : (r: seq<AuthToken>)
    ensures |r| == |rows| + 1
    ensures r[|rows|] == AuthToken(userId, rawToken, purpose, now + ttlMinutes * 60, false)
    ensures forall i :: 0 <= i < |r| ==> (Live(r[i], userId, purpose) <==> i == |rows|)
    ensures forall i :: 0 <= i < |rows| && (rows[i].userId != userId || rows[i].purpose != purpose) ==> r[i] == rows[i]
    ensures forall i :: 0 <= i < |rows| ==> r[i].tokenHash == rows[i].tokenHash
    ensures UniqueTokenHashes(rows) && FreshToken(rows, rawToken) ==> UniqueTokenHashes(r)
  {
    RetireLive(rows, userId, purpose) + [AuthToken(userId, rawToken, purpose, now + ttlMinutes * 60, false)]
  }

  /** `issue_one_time_token`: returns the raw token, whose hash is stored. */
  method IssueOneTimeToken(db: Database, user: User, purpose: string, ttlMinutes: int, rawToken: string, now: int)
    returns (token: string)
    requires db.Valid()
    requires FreshToken(db.authTokens, rawToken)
    modifies db
    ensures db.Valid()
    ensures db.authTokens == Issue(old(db.authTokens), user.id, purpose, ttlMinutes, rawToken, now)
    ensures db.users == old(db.users) && db.refreshTokens == old(db.refreshTokens)
    ensures token == rawToken
  {
    db.authTokens := RetireLive(db.authTokens, user.id, purpose);
    db.authTokens := db.authTokens + [AuthToken(user.id, rawToken, purpose, now + ttlMinutes * 60, false)];
    token := rawToken;
  }

  // ---------------------------------------------------------------------
  // Consume
  // ---------------------------------------------------------------------

  /** A row the query of `consume_one_time_token` selects: same hash, same purpose, unused. */
  predicate Redeemable(t: AuthToken, tokenHash: string, purpose: string)
  {
    t.tokenHash == tokenHash && t.purpose == purpose && !t.used
  }

  /** The table and the user `consume_one_time_token` leaves and returns. */
  datatype Consumed = Consumed(rows: seq<AuthToken>, user: Option<User>)

  /** Row `k` marked used. */
  function MarkUsed(rows: seq<AuthToken>, k: nat): (r: seq<AuthToken>)
    requires k < |rows|
    ensures |r| == |rows| && r[k].used && r[k].(used := rows[k].used) == rows[k]
    ensures forall i :: 0 <= i < |rows| && i != k ==> r[i] == rows[i]
  {
    rows[k := rows[k].(used := true)]
  }

  /**
   * `consume_one_time_token`: without a redeemable row nothing changes and
   * no user is returned; otherwise the first such row is marked used, and
   * the token's user is returned only if the token has not expired and the
   * user still exists.
   */
  function Consume(rows: seq<AuthToken>, users: seq<User>, token: string, purpose: string, now: int): (c: Consumed)
    ensures |c.rows| == |rows|
    ensures (forall k :: 0 <= k < |rows| ==> !Redeemable(rows[k], token, purpose)) <==> c.rows == rows
    ensures c.rows == rows ==> c.user.None?
    ensures c.rows != rows ==> exists k :: 0 <= k < |rows| && Redeemable(rows[k], token, purpose) && c.rows == MarkUsed(rows, k)
    ensures c.user.Some? ==>
      exists k :: (0 <= k < |rows| && Redeemable(rows[k], token, purpose) && now < rows[k].expiresAt
                  && c.user == UserById(users, rows[k].userId))
  {
    match FirstIndex(rows, t => Redeemable(t, token, purpose))
    case None => Consumed(rows, None)
    case Some(k) =>
      assert MarkUsed(rows, k)[k] != rows[k];
      if rows[k].expiresAt <= now then Consumed(MarkUsed(rows, k), None)
      else Consumed(MarkUsed(rows, k), UserById(users, rows[k].userId))
  }

  /** `consume_one_time_token`, writing the used flag back to the session. */
  method ConsumeOneTimeToken(db: Database, token: string, purpose: string, now: int) returns (user: Option<User>)
    requires db.Valid()
    modifies db
    ensures db.Valid()
    ensures Consume(old(db.authTokens), old(db.users), token, purpose, now) == Consumed(db.authTokens, user)
    ensures db.users == old(db.users) && db.refreshTokens == old(db.refreshTokens)
  {
    var found := FirstIndex(db.authTokens, t => Redeemable(t, token, purpose));
    if found.None? {
      return None;
    }
    var k := found.value;
    var row := db.authTokens[k];
    assert forall i :: 0 <= i < |db.authTokens| ==> MarkUsed(db.authTokens, k)[i].tokenHash == db.authTokens[i].tokenHash;
    if row.expiresAt <= now {
      db.authTokens := MarkUsed(db.authTokens, k);
      return None;
    }
    user := UserById(db.users, row.userId);
    db.authTokens := MarkUsed(db.authTokens, k);
  }

  /**
   * With unique hashes, a redeemable row decides the outcome: it is marked
   * used, and its user comes back exactly when the token has not expired.
   */
  lemma {:induction false} ConsumeFound(rows: seq<AuthToken>, users: seq<User>, token: string, purpose: string, now: int, k: nat)
    requires UniqueTokenHashes(rows)
    requires k < |rows| && Redeemable(rows[k], token, purpose)
    ensures Consume(rows, users, token, purpose, now).rows == MarkUsed(rows, k)
    ensures rows[k].expiresAt <= now ==> Consume(rows, users, token, purpose, now).user == None
    ensures now < rows[k].expiresAt ==> Consume(rows, users, token, purpose, now).user == UserById(users, rows[k].userId)
  {
    var found := FirstIndex(rows, t => Redeemable(t, token, purpose));
    assert found.Some?;
    var j := found.value;
    assert rows[j].tokenHash == token;
    assert j == k;
  }

  /** A token of another purpose, or an already used one, is refused and changes nothing. */
  lemma NoCrossPurpose(rows: seq<AuthToken>, users: seq<User>, token: string, purpose: string, now: int)
    requires forall k :: 0 <= k < |rows| && rows[k].tokenHash == token ==> rows[k].purpose != purpose || rows[k].used
    ensures Consume(rows, users, token, purpose, now) == Consumed(rows, None)
  {
  }

  /** Consuming marks the token used, so consuming it again yields no user and changes nothing. */
  lemma {:induction false} ConsumeOnlyOnce(rows: seq<AuthToken>, users: seq<User>, token: string, purpose: string, now: int,
                                           laterUsers: seq<User>, later: int)
    requires UniqueTokenHashes(rows)
    ensures var once := Consume(rows, users, token, purpose, now).rows;
      Consume(once, laterUsers, token, purpose, later) == Consumed(once, None)
  {
    var once := Consume(rows, users, token, purpose, now).rows;
    if once != rows {
      var k :| 0 <= k < |rows| && Redeemable(rows[k], token, purpose) && once == MarkUsed(rows, k);
      forall i | 0 <= i < |once|
        ensures !Redeemable(once[i], token, purpose)
      {
        if i != k {
          assert once[i] == rows[i];
          assert rows[i].tokenHash != rows[k].tokenHash;
        }
      }
    }
  }

  /** Issuing a token for a user and purpose makes every earlier token of that pair unconsumable. */
  lemma {:induction false} IssueRetiresEarlier(rows: seq<AuthToken>, userId: int, purpose: string, ttlMinutes: int,
                                               rawToken: string, now: int, users: seq<User>, later: int, k: nat)
    requires UniqueTokenHashes(rows) && FreshToken(rows, rawToken)
    requires k < |rows| && rows[k].userId == userId && rows[k].purpose == purpose
    ensures var issued := Issue(rows, userId, purpose, ttlMinutes, rawToken, now);
      Consume(issued, users, rows[k].tokenHash, purpose, later) == Consumed(issued, None)
  {
    var issued := Issue(rows, userId, purpose, ttlMinutes, rawToken, now);
    var token := rows[k].tokenHash;
    forall i | 0 <= i < |issued|
      ensures !Redeemable(issued[i], token, purpose)
    {
      if i < |rows| && i != k {
        assert issued[i].tokenHash == rows[i].tokenHash != token;
      } else if i == k {
        assert !Live(issued[k], userId, purpose);
      }
    }
  }

  /** The token just issued is redeemable: before it expires, consuming it returns its user. */
  lemma {:induction false} IssueThenConsume(rows: seq<AuthToken>, user: User, users: seq<User>, purpose: string,
                                            ttlMinutes: int, rawToken: string, now: int, later: int)
    requires UniqueTokenHashes(rows) && FreshToken(rows, rawToken)
    requires user in users && UniqueIds(users)
    requires later < now + ttlMinutes * 60
    ensures var issued := Issue(rows, user.id, purpose, ttlMinutes, rawToken, now);
      Consume(issued, users, rawToken, purpose, later) == Consumed(MarkUsed(issued, |rows|), Some(user))
  {
    var issued := Issue(rows, user.id, purpose, ttlMinutes, rawToken, now);
    ConsumeFound(issued, users, rawToken, purpose, later, |rows|);
    var u := UserById(users, user.id);
    var i :| 0 <= i < |users| && users[i] == user;
    assert u.Some?;
    var j :| 0 <= j < |users| && users[j] == u.value;
    assert i == j;
  }
}
