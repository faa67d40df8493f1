/** internal/middlewares/auth_middleware.go: the bearer-token gate in front of
    every protected route, and the admin-only gate. */
module AuthMiddleware {
  import opened Wrappers
  import opened GoStrings
  import opened GoTime
  import opened TokenCodec
  import opened SessionStore
  import opened Models

  datatype Request = Request(verb: string, authorization: string)

  /** A middleware's decision: stop the request with a status and error text,
      or hand it on with the (possibly extended) context. */
  datatype Gate = Halt(status: int, error: string) | Pass(ctx: Context)

  /** What a verified token says about its holder. */
  datatype Identity = Identity(userID: nat, role: string, canCRUD: bool, token: string)

  /** The verdict of everything the middleware checks before the session table. */
  datatype Verdict = Preflight | Rejected(status: int, error: string) | Claimed(who: Identity)

  /** The header split on single spaces must give exactly two parts, the first
      exactly "Bearer"; the second is the token. */
  function BearerToken(header: string): (r: Option<string>)
    ensures r.Some? ==> ' ' !in r.value
  {
    var parts := Split(header, ' ');
    if |parts| != 2 || parts[0] != "Bearer" then None else Some(parts[1])
  }

  /** The accepted headers are precisely "Bearer " followed by a space-free
      token (possibly empty). */
  lemma BearerTokenExact(header: string, token: string)
    ensures BearerToken(header) == Some(token) <==> header == "Bearer " + token && ' ' !in token
  {
    if BearerToken(header) == Some(token) {
      JoinSplit(header, ' ');
      var parts := Split(header, ' ');
      assert parts == ["Bearer", token];
      assert Join(parts, ' ') == "Bearer" + [' '] + token;
    }
    if header == "Bearer " + token && ' ' !in token {
      assert header == "Bearer" + [' '] + token;
      SplitAfterFirst("Bearer", ' ', token);
      SplitWithoutSeparator(token, ' ');
    }
  }

  /** The `user_id` claim when it is a (non-negative) number. */
  function UserIDClaim(claims: Claims): (r: Option<nat>)
    ensures r.Some? <==> "user_id" in claims && claims["user_id"].Number? && claims["user_id"].n >= 0
    ensures r.Some? ==> r.value == claims["user_id"].n
  {
    if "user_id" in claims && claims["user_id"].Number? && claims["user_id"].n >= 0
    then Some(claims["user_id"].n) else None
  }

  /** The `role` claim, "" when missing or not a string. */
  function RoleClaim(claims: Claims): (role: string)
    ensures "role" !in claims || !claims["role"].Text? ==> role == ""
    ensures "role" in claims && claims["role"].Text? ==> role == claims["role"].s
  {
    if "role" in claims && claims["role"].Text? then claims["role"].s else ""
  }

  /** The `canCRUD` claim, false when missing or not a boolean. */
  function CanCRUDClaim(claims: Claims): (canCRUD: bool)
    ensures canCRUD <==> "canCRUD" in claims && claims["canCRUD"] == Flag(true)
  {
    "canCRUD" in claims && claims["canCRUD"].Flag? && claims["canCRUD"].b
  }

  /** Steps 0-4 of the middleware: the preflight bypass, the header, the
      signature (HMAC methods only), the expiry and the claims. */
  function ReadBearer(req: Request, lib: JwtLib, key: seq<char>, now: int): (v: Verdict)
    ensures v.Preflight? <==> req.verb == "OPTIONS"
    ensures v.Rejected? ==> v.status == 401
    ensures req.verb != "OPTIONS" && req.authorization == "" ==>
              v == Rejected(401, "Authorization header required")
    ensures req.verb != "OPTIONS" && req.authorization != "" && BearerToken(req.authorization).None? ==>
              v == Rejected(401, "Invalid token format")
    ensures req.verb != "OPTIONS" && BearerToken(req.authorization).Some? &&
            Parse(lib, key, BearerToken(req.authorization).value, true, now).Refused? ==>
              v == Rejected(401, "Invalid or expired token")
    ensures req.verb != "OPTIONS" && BearerToken(req.authorization).Some? &&
            Parse(lib, key, BearerToken(req.authorization).value, true, now).Parsed? &&
            UserIDClaim(Parse(lib, key, BearerToken(req.authorization).value, true, now).claims).None? ==>
              v == Rejected(401, "Invalid token claims: user_id")
    ensures v.Claimed? <==>
              req.verb != "OPTIONS" && BearerToken(req.authorization).Some? &&
              Parse(lib, key, BearerToken(req.authorization).value, true, now).Parsed? &&
              UserIDClaim(Parse(lib, key, BearerToken(req.authorization).value, true, now).claims).Some?
    ensures v.Claimed? ==>
              req.authorization == "Bearer " + v.who.token && ' ' !in v.who.token &&
              Parse(lib, key, v.who.token, true, now).Parsed? &&
              var claims := Parse(lib, key, v.who.token, true, now).claims;
              UserIDClaim(claims) == Some(v.who.userID) &&
              v.who.role == RoleClaim(claims) && v.who.canCRUD == CanCRUDClaim(claims)
  {
    if req.verb == "OPTIONS" then Preflight
    else if req.authorization == "" then Rejected(401, "Authorization header required")
    else match BearerToken(req.authorization)
      case None => Rejected(401, "Invalid token format")
      case Some(token) =>
        BearerTokenExact(req.authorization, token);
        match Parse(lib, key, token, true, now)
        case Refused(_) => Rejected(401, "Invalid or expired token")
        case Parsed(claims) =>
          match UserIDClaim(claims)
          case None => Rejected(401, "Invalid token claims: user_id")
          case Some(userID) => Claimed(Identity(userID, RoleClaim(claims), CanCRUDClaim(claims), token))
  }

  /** AuthMiddleware: a token that passes every check of ReadBearer is still
      refused unless it is exactly the access token stored for its user.
      `fail` is a database error during that lookup. */
  method Authenticate(store: TokenStore, req: Request, ctx: Context, lib: JwtLib, key: seq<char>, now: int, fail: bool)
    returns (g: Gate)
    ensures var v := ReadBearer(req, lib, key, now);
            (v.Preflight? ==> g == Halt(204, "")) &&
            (v.Rejected? ==> g == Halt(v.status, v.error)) &&
            (g.Pass? <==> v.Claimed? && !fail && AccessMatches(store.rows, v.who.userID, v.who.token)) &&
            (v.Claimed? && !g.Pass? ==> g == Halt(401, "Session expired or logged out")) &&
            (g.Pass? ==> g.ctx == ctx["userID" := UintVal(v.who.userID)]["role" := StrVal(v.who.role)]
                                     ["canCRUD" := BoolVal(v.who.canCRUD)])
  {
    var v := ReadBearer(req, lib, key, now);
    match v
    case Preflight =>
      g := Halt(204, "");
    case Rejected(status, error) =>
      g := Halt(status, error);
    case Claimed(who) =>
      var valid := store.CheckAccessTokenValid(who.userID, who.token, fail);
      if !valid {
        g := Halt(401, "Session expired or logged out");
      } else {
        g := Pass(ctx["userID" := UintVal(who.userID)]["role" := StrVal(who.role)]["canCRUD" := BoolVal(who.canCRUD)]);
      }
  }

  /** AdminOnly: passes only a non-preflight request whose context role is
      exactly "Admin"; otherwise 403. */
  function AdminOnly(req: Request, ctx: Context): (g: Gate)
    ensures g.Pass? <==> req.verb != "OPTIONS" && "role" in ctx && ctx["role"] == StrVal(RoleAdmin)
    ensures g.Pass? ==> g.ctx == ctx
    ensures req.verb == "OPTIONS" ==> g == Halt(204, "")
    ensures !g.Pass? && req.verb != "OPTIONS" ==> g == Halt(403, "Forbidden: Admins only")
  {
    if req.verb == "OPTIONS" then Halt(204, "")
    else if "role" in ctx && ctx["role"] == StrVal(RoleAdmin) then Pass(ctx)
    else Halt(403, "Forbidden: Admins only")
  }

  /** An access token issued at `now` is read back, as a bearer header, as
      exactly the identity it was issued for, at any later moment at least a
      second before its expiry. */
  lemma IssuedTokenReadsBack(lib: JwtLib, key: seq<char>, userID: nat, role: string, canCRUD: bool,
                             now: int, later: int, verb: string)
    requires Consistent(lib)
    requires GenerateAllTokens(lib, key, userID, role, canCRUD, now).err.None?
    requires later + NanosPerSecond <= now + AccessTTL
    requires verb != "OPTIONS"
    ensures var access := GenerateAllTokens(lib, key, userID, role, canCRUD, now).access;
            ReadBearer(Request(verb, "Bearer " + access), lib, key, later) ==
              Claimed(Identity(userID, role, canCRUD, access))
  {
    var all := GenerateAllTokens(lib, key, userID, role, canCRUD, now);
    var c := AccessClaims(userID, role, canCRUD, now + AccessTTL);
    assert lib.sign(key, c) == Some(all.access);
    assert CompactToken(all.access);
    BearerTokenExact("Bearer " + all.access, all.access);
    IssuedAccessTokenParses(lib, key, userID, role, canCRUD, now, later);
  }
}
