/** pkg/utils/token.go: the JWT secret, the access/refresh token builders and
    the password check, over an abstract JWT library and an abstract bcrypt. */
module TokenCodec {
  import opened Wrappers
  import opened GoTime

  const AccessTTL: int := 20 * Minute
  const RefreshTTL: int := 7 * 24 * Hour
  const MinSecretLength: int := 32

  /** A claim value as the JWT library decodes it: JSON numbers (here only
      integral ones), strings and booleans. */
  datatype ClaimValue = Number(n: int) | Text(s: string) | Flag(b: bool)

  type Claims = map<string, ClaimValue>

  /** Signing methods a token header can name. */
  datatype Alg = HS256 | HS384 | HS512 | RS256 | ES256 | NoneAlg

  predicate IsHmac(alg: Alg) { alg.HS256? || alg.HS384? || alg.HS512? }

  /** The golang-jwt library, which the model does not see inside:
      `sign(key, claims)` is HS256 `SignedString(key)` (None: signing failed),
      `decode(token)` reads the header's method and the claims of a compact
      token (None: malformed), `verifies(key, token)` is the signature check. */
  datatype JwtLib = JwtLib(
    sign: (seq<char>, Claims) -> Option<string>,
    decode: string -> Option<(Alg, Claims)>,
    verifies: (seq<char>, string) -> bool)

  /** A compact JWS is non-empty and never contains a space. */
  predicate CompactToken(t: string) { |t| > 0 && ' ' !in t }

  /** What the library guarantees about its own output: a token it signed
      decodes to the HS256 header and the very claims signed, carries a
      signature that verifies under the same key, and is compact. And, since
      every key here is a byte slice, only an HMAC method verifies: the RSA,
      ECDSA and EdDSA methods refuse such a key as the wrong key type, and
      `none` accepts only the library's dedicated unsafe key. */
  ghost predicate Consistent(lib: JwtLib)
  {
    (forall key, c :: lib.sign(key, c).Some? ==>
      var t := lib.sign(key, c).value;
      lib.decode(t) == Some((HS256, c)) && lib.verifies(key, t) && CompactToken(t)) &&
    (forall key, t :: lib.verifies(key, t) && lib.decode(t).Some? ==> IsHmac(lib.decode(t).value.0))
  }

  /** Signing never fails under `key`. */
  ghost predicate SignsAll(lib: JwtLib, key: seq<char>)
  {
    forall c :: lib.sign(key, c).Some?
  }

  /** Two different claim sets never sign to the same token. */
  lemma SignedTokensDetermineClaims(lib: JwtLib, key: seq<char>, c1: Claims, c2: Claims)
    requires Consistent(lib)
    requires lib.sign(key, c1).Some? && lib.sign(key, c2).Some? && c1 != c2
    ensures lib.sign(key, c1).value != lib.sign(key, c2).value
  {
  }

  // ----- InitJWT --------------------------------------------------------------

  /** The package variable `JwtSecret`. */
  class JwtConfig {
    var secret: seq<char>

    constructor ()
      ensures secret == []
    {
      secret := [];
    }

    /** Reads JWT_SECRET (given as `env`, "" when unset). An empty or shorter
        than 32-byte secret is fatal and leaves the secret untouched (the
        process exits); otherwise the secret becomes its bytes. */
    method InitJWT(env: string) returns (fatal: Option<string>)
      modifies this
      ensures fatal.None? <==> env != "" && |env| >= MinSecretLength
      ensures fatal.None? ==> secret == env
      ensures fatal.Some? ==> secret == old(secret)
      ensures env == "" ==>
                fatal == Some("ERROR: JWT_SECRET is not set in .env file. This is required for security.")
      ensures env != "" && |env| < MinSecretLength ==>
                fatal == Some("ERROR: JWT_SECRET must be at least 32 characters long for security.")
    {
      if env == "" {
        return Some("ERROR: JWT_SECRET is not set in .env file. This is required for security.");
      }
      if |env| < MinSecretLength {
        return Some("ERROR: JWT_SECRET must be at least 32 characters long for security.");
      }
      secret := env;
      fatal := None;
    }
  }

  // ----- claims and token builders ------------------------------------------

  /** The claim set of an access token. */
  function AccessClaims(userID: nat, role: string, canCRUD: bool, expiry: int): (c: Claims)
    ensures c.Keys == {"user_id", "role", "canCRUD", "exp"}
  {
    map["user_id" := Number(userID), "role" := Text(role), "canCRUD" := Flag(canCRUD),
        "exp" := Number(UnixSeconds(expiry))]
  }

  /** The claim set of a refresh token: no role and no canCRUD. */
  function RefreshClaims(userID: nat, expiry: int): (c: Claims)
    ensures c.Keys == {"user_id", "exp"}
    ensures "role" !in c && "canCRUD" !in c
  {
    map["user_id" := Number(userID), "exp" := Number(UnixSeconds(expiry))]
  }

  /** GenerateAllTokens' five results; `err` is None for a nil error. */
  datatype AllTokens = AllTokens(access: string, refresh: string, accessExpiry: int, refreshExpiry: int,
                                 err: Option<string>)

  /** GenerateAccessTokenOnly's and GenerateRefreshTokenOnly's three results. */
  datatype OneToken = OneToken(token: string, expiry: int, err: Option<string>)

  /** Access token for 20 minutes and refresh token for 7 days from `now`;
      on either signing failure every other result is empty or zero. */
  function GenerateAllTokens(lib: JwtLib, key: seq<char>, userID: nat, role: string, canCRUD: bool, now: int)
    : (r: AllTokens)
    ensures r.err.None? <==>
              lib.sign(key, AccessClaims(userID, role, canCRUD, now + AccessTTL)).Some? &&
              lib.sign(key, RefreshClaims(userID, now + RefreshTTL)).Some?
    ensures r.err.Some? ==>
              r.access == "" && r.refresh == "" && IsZero(r.accessExpiry) && IsZero(r.refreshExpiry)
    ensures r.err.None? ==>
              r.accessExpiry == now + AccessTTL && r.refreshExpiry == now + RefreshTTL &&
              r.accessExpiry < r.refreshExpiry
    ensures r.err.None? ==>
              lib.sign(key, AccessClaims(userID, role, canCRUD, r.accessExpiry)) == Some(r.access) &&
              lib.sign(key, RefreshClaims(userID, r.refreshExpiry)) == Some(r.refresh)
  {
    var accessExpiry := now + AccessTTL;
    match lib.sign(key, AccessClaims(userID, role, canCRUD, accessExpiry))
    case None => AllTokens("", "", ZeroTime, ZeroTime, Some("failed to create access token"))
    case Some(access) =>
      var refreshExpiry := now + RefreshTTL;
      match lib.sign(key, RefreshClaims(userID, refreshExpiry))
      case None => AllTokens("", "", ZeroTime, ZeroTime, Some("failed to create refresh token"))
      case Some(refresh) => AllTokens(access, refresh, accessExpiry, refreshExpiry, None)
  }

  /** A fresh access token alone, with the access claim set and TTL. */
  function GenerateAccessTokenOnly(lib: JwtLib, key: seq<char>, userID: nat, role: string, canCRUD: bool, now: int)
    : (r: OneToken)
    ensures r.err.None? <==> lib.sign(key, AccessClaims(userID, role, canCRUD, now + AccessTTL)).Some?
    ensures r.err.Some? ==> r.token == "" && IsZero(r.expiry)
    ensures r.err.None? ==>
              r.expiry == now + AccessTTL &&
              lib.sign(key, AccessClaims(userID, role, canCRUD, r.expiry)) == Some(r.token)
  {
    var accessExpiry := now + AccessTTL;
    match lib.sign(key, AccessClaims(userID, role, canCRUD, accessExpiry))
    case None => OneToken("", ZeroTime, Some("failed to create access token"))
    case Some(access) => OneToken(access, accessExpiry, None)
  }

  /** A fresh refresh token alone, with the refresh claim set and TTL. */
  function GenerateRefreshTokenOnly(lib: JwtLib, key: seq<char>, userID: nat, now: int): (r: OneToken)
    ensures r.err.None? <==> lib.sign(key, RefreshClaims(userID, now + RefreshTTL)).Some?
    ensures r.err.Some? ==> r.token == "" && IsZero(r.expiry)
    ensures r.err.None? ==>
              r.expiry == now + RefreshTTL && lib.sign(key, RefreshClaims(userID, r.expiry)) == Some(r.token)
  {
    var refreshExpiry := now + RefreshTTL;
    match lib.sign(key, RefreshClaims(userID, refreshExpiry))
    case None => OneToken("", ZeroTime, Some("failed to create refresh token"))
    case Some(refresh) => OneToken(refresh, refreshExpiry, None)
  }

  /** When both tokens can be issued, GenerateAccessTokenOnly gives exactly the
      access half and GenerateRefreshTokenOnly exactly the refresh half. */
  lemma SingleTokensAreHalvesOfPair(lib: JwtLib, key: seq<char>, userID: nat, role: string, canCRUD: bool, now: int)
    requires GenerateAllTokens(lib, key, userID, role, canCRUD, now).err.None?
    ensures var all := GenerateAllTokens(lib, key, userID, role, canCRUD, now);
            GenerateAccessTokenOnly(lib, key, userID, role, canCRUD, now) == OneToken(all.access, all.accessExpiry, None) &&
            GenerateRefreshTokenOnly(lib, key, userID, now) == OneToken(all.refresh, all.refreshExpiry, None)
  {
  }

  // ----- password check -------------------------------------------------------

  /** `compare(hash, plain)` is bcrypt's CompareHashAndPassword succeeding.
      Every failure becomes the single error "password does not match". */
  function VerifyPassword(compare: (string, string) -> bool, hashedPassword: string, plainPassword: string)
    : (err: Option<string>)
    ensures err.None? <==> compare(hashedPassword, plainPassword)
    ensures err.Some? ==> err.value == "password does not match"
  {
    if compare(hashedPassword, plainPassword) then None else Some("password does not match")
  }

  // ----- jwt.Parse ------------------------------------------------------------

  /** Why jwt.Parse refused a token. */
  datatype ParseError = Malformed | UnexpectedSigningMethod | SignatureInvalid | InvalidClaims | Expired

  datatype ParseResult = Parsed(claims: Claims) | Refused(reason: ParseError)

  /** jwt.Parse with a key function returning `key`; `requireHmac` is whether
      the key function also refuses methods outside the HMAC family. The
      library checks the structure, then the key function, then the
      signature, then the `exp` claim (a token is valid strictly before it). */
  function Parse(lib: JwtLib, key: seq<char>, token: string, requireHmac: bool, now: int): (r: ParseResult)
    ensures r.Parsed? ==>
              lib.decode(token).Some? && lib.decode(token).value.1 == r.claims &&
              lib.verifies(key, token) &&
              (requireHmac ==> IsHmac(lib.decode(token).value.0)) &&
              ("exp" in r.claims ==> r.claims["exp"].Number? && now < r.claims["exp"].n * NanosPerSecond)
    ensures lib.decode(token).None? ==> r == Refused(Malformed)
  {
    match lib.decode(token)
    case None => Refused(Malformed)
    case Some((alg, claims)) =>
      if requireHmac && !IsHmac(alg) then Refused(UnexpectedSigningMethod)
      else if !lib.verifies(key, token) then Refused(SignatureInvalid)
      else if "exp" in claims && !claims["exp"].Number? then Refused(InvalidClaims)
      else if "exp" in claims && !(now < claims["exp"].n * NanosPerSecond) then Refused(Expired)
      else Parsed(claims)
  }

  /** An access token issued at `now` parses, under the method check, to
      exactly its claims at any moment at least one second before its nominal
      expiry (the `exp` claim is rounded down to whole seconds). */
  lemma IssuedAccessTokenParses(lib: JwtLib, key: seq<char>, userID: nat, role: string, canCRUD: bool,
                                now: int, later: int)
    requires Consistent(lib)
    requires GenerateAllTokens(lib, key, userID, role, canCRUD, now).err.None?
    requires later + NanosPerSecond <= now + AccessTTL
    ensures var all := GenerateAllTokens(lib, key, userID, role, canCRUD, now);
            Parse(lib, key, all.access, true, later) == Parsed(AccessClaims(userID, role, canCRUD, now + AccessTTL))
  {
    var all := GenerateAllTokens(lib, key, userID, role, canCRUD, now);
    var c := AccessClaims(userID, role, canCRUD, now + AccessTTL);
    assert lib.sign(key, c) == Some(all.access);
    var exp := UnixSeconds(now + AccessTTL);
    assert c["exp"] == Number(exp);
    assert later < exp * NanosPerSecond;
  }

  /** The refresh handler's parse does not ask for an HMAC method, but with a
      byte-slice key the signature check refuses every other method anyway:
      both parses accept the same tokens with the same claims, and a token
      naming another method is refused by both, for different reasons. */
  lemma RefreshParseSameTokens(lib: JwtLib, key: seq<char>, token: string, now: int)
    requires Consistent(lib)
    ensures Parse(lib, key, token, false, now).Parsed? <==> Parse(lib, key, token, true, now).Parsed?
    ensures Parse(lib, key, token, false, now).Parsed? ==>
              Parse(lib, key, token, false, now) == Parse(lib, key, token, true, now)
    ensures lib.decode(token).Some? && !IsHmac(lib.decode(token).value.0) ==>
              Parse(lib, key, token, true, now) == Refused(UnexpectedSigningMethod) &&
              Parse(lib, key, token, false, now) == Refused(SignatureInvalid)
  {
    if lib.decode(token).Some? && lib.verifies(key, token) {
      assert IsHmac(lib.decode(token).value.0);
    }
  }
}
