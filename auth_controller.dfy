/** internal/controller/auth_controller.go: login, refresh and logout as guard
    chains over the session table. The `...Fails` arguments stand for errors
    reported by the database driver at the corresponding statement. */
module AuthController {
  import opened Wrappers
  import opened GoTime
  import opened TokenCodec
  import opened SessionStore
  import opened Models
  import opened Helpers
  import opened AuthMiddleware

  /** The body of a successful login. */
  datatype LoginData = LoginData(accessToken: string, accessTokenExpiresAt: int, refreshToken: string, user: User)

  /** The body of a successful refresh: a new access token and nothing else. */
  datatype RefreshData = RefreshData(accessToken: string, accessTokenExpiresAt: int)

  /** LoginHandler. `account` is the users row the lookup by e-mail found
      (None: no such row, or the query failed); that lookup does not select
      the phone, so the user in the answer has phone "". `compare` is
      bcrypt's hash comparison.
      An unknown address and a wrong password get the same answer; a
      successful login replaces the user's session row with the new pair
      before answering, and a failed one leaves the table as it was. */
  method LoginHandler(store: TokenStore, lib: JwtLib, key: seq<char>, account: Option<User>, password: string,
                      compare: (string, string) -> bool, now: int, saveFails: bool)
    returns (resp: Response<LoginData>)
    modifies store
    ensures account.None? || VerifyPassword(compare, account.value.passwordHash, password).Some? ==>
              resp == Failure(401, "Invalid email or password") && store.rows == old(store.rows)
    ensures account.Some? && VerifyPassword(compare, account.value.passwordHash, password).None? ==>
              var u := account.value;
              var all := GenerateAllTokens(lib, key, u.id, u.role, u.canCRUD, now);
              (all.err.Some? ==> resp == Failure(500, "Failed to generate tokens") && store.rows == old(store.rows)) &&
              (all.err.None? && saveFails ==>
                 resp == Failure(500, "Failed to save session") && store.rows == old(store.rows)) &&
              (all.err.None? && !saveFails ==>
                 resp == Success(200, LoginData(all.access, UnixSeconds(all.accessExpiry), all.refresh, u.(phone := ""))) &&
                 store.rows == old(store.rows)[u.id := Session(all.access, all.refresh, all.accessExpiry, all.refreshExpiry)])
    ensures resp.Success? ==>
              AccessMatches(store.rows, resp.data.user.id, resp.data.accessToken) &&
              RefreshMatches(store.rows, resp.data.user.id, resp.data.refreshToken, now)
    ensures resp.Failure? ==> store.rows == old(store.rows)
  {
    if account.None? {
      return Failure(401, "Invalid email or password");
    }
    var user := account.value.(phone := "");
    if VerifyPassword(compare, user.passwordHash, password).Some? {
      return Failure(401, "Invalid email or password");
    }
    var all := GenerateAllTokens(lib, key, user.id, user.role, user.canCRUD, now);
    if all.err.Some? {
      return Failure(500, "Failed to generate tokens");
    }
    var err := store.SaveToken(user.id, all.access, all.refresh, all.accessExpiry, all.refreshExpiry, saveFails);
    if err {
      return Failure(500, "Failed to save session");
    }
    resp := Success(200, LoginData(all.access, UnixSeconds(all.accessExpiry), all.refresh, user));
  }

  /** RefreshHandler. The refresh token is parsed at `now` without a
      signing-method check, looked up in the session table at `now`, and its
      stored expiry compared with the handler's own clock reading `later`.
      `users` is the users table; only the access half of the session row is
      ever rewritten, and no refresh token is returned. */
  method RefreshHandler(store: TokenStore, lib: JwtLib, key: seq<char>, refreshToken: string,
                        users: map<nat, User>, now: int, later: int, checkFails: bool, updateFails: bool)
    returns (resp: Response<RefreshData>)
    requires WellKeyed(users)
    modifies store
    ensures Parse(lib, key, refreshToken, false, now).Refused? ==>
              resp == Failure(401, "Invalid refresh token")
    ensures var p := Parse(lib, key, refreshToken, false, now);
            p.Parsed? && UserIDClaim(p.claims).None? ==>
              resp == Failure(401, "Invalid token: missing user ID")
    ensures var p := Parse(lib, key, refreshToken, false, now);
            p.Parsed? && UserIDClaim(p.claims).Some? ==>
              var uid := UserIDClaim(p.claims).value;
              var valid := !checkFails && RefreshMatches(old(store.rows), uid, refreshToken, now);
              var lapsed := valid && !IsZero(old(store.rows)[uid].rtExpiresAt) && later > old(store.rows)[uid].rtExpiresAt;
              (!valid ==> resp == Failure(401, "Refresh token expired or revoked")) &&
              (lapsed ==> resp == Failure(401, "Refresh token expired")) &&
              (valid && !lapsed && uid !in users ==> resp == Failure(401, "User not found")) &&
              (valid && !lapsed && uid in users ==>
                 var gen := GenerateAccessTokenOnly(lib, key, uid, users[uid].role, users[uid].canCRUD, later);
                 (gen.err.Some? ==> resp == Failure(500, "Failed to generate access token")) &&
                 (gen.err.None? && updateFails ==> resp == Failure(500, "Failed to update session")) &&
                 (gen.err.None? && !updateFails ==>
                    resp == Success(200, RefreshData(gen.token, UnixSeconds(gen.expiry))) &&
                    store.rows == old(store.rows)[uid := old(store.rows)[uid].(access := gen.token, atExpiresAt := gen.expiry)]))
    ensures resp.Failure? ==> resp.status in {401, 500} && store.rows == old(store.rows)
    ensures resp.Success? ==>
              store.rows.Keys == old(store.rows).Keys &&
              exists uid :: uid in old(store.rows) &&
                store.rows == old(store.rows)[uid := old(store.rows)[uid].(access := store.rows[uid].access,
                                                                           atExpiresAt := store.rows[uid].atExpiresAt)] &&
                AccessMatches(store.rows, uid, resp.data.accessToken) &&
                RefreshMatches(store.rows, uid, refreshToken, now)
    ensures later <= now ==> resp != Failure(401, "Refresh token expired")
  {
    var p := Parse(lib, key, refreshToken, false, now);
    if p.Refused? {
      return Failure(401, "Invalid refresh token");
    }
    var claimedID := UserIDClaim(p.claims);
    if claimedID.None? {
      return Failure(401, "Invalid token: missing user ID");
    }
    var userID := claimedID.value;
    var isValid, dbExpiry := store.CheckRefreshTokenValid(userID, refreshToken, now, checkFails);
    if !isValid {
      return Failure(401, "Refresh token expired or revoked");
    }
    if !IsZero(dbExpiry) && later > dbExpiry {
      return Failure(401, "Refresh token expired");
    }
    if userID !in users {
      return Failure(401, "User not found");
    }
    var user := users[userID];
    var gen := GenerateAccessTokenOnly(lib, key, user.id, user.role, user.canCRUD, later);
    if gen.err.Some? {
      return Failure(500, "Failed to generate access token");
    }
    var err := store.UpdateAccessTokenOnly(user.id, gen.token, gen.expiry, updateFails);
    if err {
      return Failure(500, "Failed to update session");
    }
    resp := Success(200, RefreshData(gen.token, UnixSeconds(gen.expiry)));
  }

  /** LogoutHandler: 401 and no table access without a user ID in the
      context; otherwise the user's row is deleted and the answer is 200 even
      when the delete fails. */
  method LogoutHandler(store: TokenStore, ctx: Context, deleteFails: bool) returns (resp: Response<string>)
    modifies store
    ensures !GetUserID(ctx).1 ==> resp == Failure(401, "Unauthorized") && store.rows == old(store.rows)
    ensures GetUserID(ctx).1 ==> resp == Success(200, "Successfully logged out")
    ensures GetUserID(ctx).1 && !deleteFails ==>
              store.rows == old(store.rows) - {GetUserID(ctx).0} && GetUserID(ctx).0 !in store.rows
    ensures deleteFails ==> store.rows == old(store.rows)
  {
    var (userID, exists_) := GetUserID(ctx);
    if !exists_ {
      return Failure(401, "Unauthorized");
    }
    var _ := store.DeleteToken(userID, deleteFails);
    resp := Success(200, "Successfully logged out");
  }
}
