/** The `user_tokens` table (repository/token_query.go): at most one row per
    user, holding the access token, the refresh token and their expiries.
    Each SQL statement is one atomic step on a map keyed by user ID; the
    `fail` argument of every operation stands for an error reported by the
    database driver. */
module SessionStore {
  import opened GoTime

  /** One `user_tokens` row, without its key. */
  datatype Session = Session(access: string, refresh: string, atExpiresAt: int, rtExpiresAt: int)

  /** The stored access token of `userID` is exactly `token`. */
  predicate AccessMatches(rows: map<nat, Session>, userID: nat, token: string)
  {
    userID in rows && rows[userID].access == token
  }

  /** The stored refresh token of `userID` is exactly `token` and still ahead of `now`. */
  predicate RefreshMatches(rows: map<nat, Session>, userID: nat, token: string, now: int)
  {
    userID in rows && rows[userID].refresh == token && now < rows[userID].rtExpiresAt
  }

  class TokenStore {
    /** user_id -> row; a map holds at most one row per key, as the table's
        unique key on user_id does. */
    var rows: map<nat, Session>

    constructor ()
      ensures rows == map[]
    {
      rows := map[];
    }

    /** Login: INSERT ... ON DUPLICATE KEY UPDATE. The row of `userID` holds
        exactly the new values, whether or not it existed; no other row changes. */
    method SaveToken(userID: nat, access: string, refresh: string, atExp: int, rtExp: int, fail: bool)
      returns (err: bool)
      modifies this
      ensures err == fail
      ensures !fail ==> rows == old(rows)[userID := Session(access, refresh, atExp, rtExp)]
      ensures !fail ==> rows.Keys == old(rows).Keys + {userID}
      ensures !fail ==> forall t :: AccessMatches(rows, userID, t) <==> t == access
      ensures fail ==> rows == old(rows)
    {
      err := fail;
      if !fail {
        rows := rows[userID := Session(access, refresh, atExp, rtExp)];
      }
    }

    /** Refresh: UPDATE of the access half only. Without a row nothing changes
        and no error is reported. */
    method UpdateAccessTokenOnly(userID: nat, newAccess: string, newAtExp: int, fail: bool)
      returns (err: bool)
      modifies this
      ensures err == fail
      ensures !fail && userID in old(rows) ==>
                rows == old(rows)[userID := old(rows)[userID].(access := newAccess, atExpiresAt := newAtExp)]
      ensures !fail && userID in old(rows) ==>
                rows[userID].refresh == old(rows)[userID].refresh &&
                rows[userID].rtExpiresAt == old(rows)[userID].rtExpiresAt
      ensures fail || userID !in old(rows) ==> rows == old(rows)
    {
      err := fail;
      if !fail && userID in rows {
        rows := rows[userID := rows[userID].(access := newAccess, atExpiresAt := newAtExp)];
      }
    }

    /** True iff the row exists, its refresh token is exactly the presented one
        and `now` is before its expiry. The stored expiry is returned whether
        or not the strings match; a missing row or a query error gives
        (false, zero time). */
    method CheckRefreshTokenValid(userID: nat, refreshString: string, now: int, fail: bool)
      returns (valid: bool, rtExpiresAt: int)
      ensures valid <==> !fail && RefreshMatches(rows, userID, refreshString, now)
      ensures fail || userID !in rows ==> rtExpiresAt == ZeroTime
      ensures !fail && userID in rows ==> rtExpiresAt == rows[userID].rtExpiresAt
    {
      if fail || userID !in rows {
        return false, ZeroTime;
      }
      var row := rows[userID];
      var isTokenMatch := row.refresh == refreshString;
      var isNotExpired := now < row.rtExpiresAt;
      valid, rtExpiresAt := isTokenMatch && isNotExpired, row.rtExpiresAt;
    }

    /** Exact string equality with the stored access token; its expiry is not
        consulted. A missing row or a query error gives false. */
    method CheckAccessTokenValid(userID: nat, tokenString: string, fail: bool) returns (valid: bool)
      ensures valid <==> !fail && AccessMatches(rows, userID, tokenString)
    {
      if fail || userID !in rows {
        return false;
      }
      valid := rows[userID].access == tokenString;
    }

    /** Logout: DELETE of the row; deleting a missing row is not an error. */
    method DeleteToken(userID: nat, fail: bool) returns (err: bool)
      modifies this
      ensures err == fail
      ensures !fail ==> rows == old(rows) - {userID}
      ensures !fail ==> userID !in rows
      ensures fail ==> rows == old(rows)
    {
      err := fail;
      if !fail {
        rows := rows - {userID};
      }
    }
  }
}
