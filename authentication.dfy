/**
 * accounts/authentication.py: authentication that reads the access token from the `access`
 * cookie first and falls back to the Authorization header only when there is no such cookie.
 */
module CookieAuthentication {
  import opened Wrappers
  import opened Http
  import Bytes
  import Users

  /** The claims of a validated access token: the token itself and its user id claim, if any. */
  datatype Claims = Claims(token: string, userId: Option<nat>)

  /** A successful authentication: `(user, validated_token)`. */
  datatype Identity = Identity(user: nat, token: string)

  /**
   * get_access_cookie: the `access` cookie encoded to bytes (cookies arrive as text, so the
   * text branch is always taken), or None when there is no such cookie.
   */
  function GetAccessCookie(cookies: map<string, string>): (r: Option<seq<Bytes.Byte>>)
    ensures r.Some? <==> "access" in cookies
    ensures r.Some? ==> r.value == Bytes.Encode(cookies["access"])
  {
    if "access" in cookies then Some(Bytes.Encode(cookies["access"])) else None
  }

  /**
   * The library's get_user: the user named by the token's id claim, which must exist and be
   * active.
   */
  function GetUser(rows: map<nat, Users.UserRecord>, claims: Claims): (r: Result<nat, ApiError>)
    ensures r.Ok? <==> claims.userId.Some? && claims.userId.value in rows && rows[claims.userId.value].isActive
    ensures r.Ok? ==> r.value == claims.userId.value
    ensures r.Err? ==> Status(r.error) == 401
  {
    match claims.userId
    case None => Err(InvalidToken("Token contained no recognizable user identification"))
    case Some(id) =>
      if id !in rows then Err(AuthenticationFailed("user_not_found"))
      else if !rows[id].isActive then Err(AuthenticationFailed("user_inactive"))
      else Ok(id)
  }

  /**
   * authenticate. `validate` is the library's get_validated_token (None where it raises
   * InvalidToken); `header` is what header-based JWT authentication yields for this request.
   */
  function Authenticate(cookies: map<string, string>, validate: seq<Bytes.Byte> -> Option<Claims>,
                        rows: map<nat, Users.UserRecord>, header: Result<Option<Identity>, ApiError>)
    : (r: Result<Option<Identity>, ApiError>)
    ensures "access" !in cookies ==> r == header
    ensures "access" in cookies && validate(Bytes.Encode(cookies["access"])).None? ==> r == Ok(None)
    ensures "access" in cookies && validate(Bytes.Encode(cookies["access"])).Some? ==>
      var claims := validate(Bytes.Encode(cookies["access"])).value;
      && (GetUser(rows, claims).Ok? ==> r == Ok(Some(Identity(GetUser(rows, claims).value, claims.token))))
      && (GetUser(rows, claims).Err? ==> r == Err(GetUser(rows, claims).error) && Status(r.error) == 401)
    ensures "access" in cookies && r.Ok? && r.value.Some? ==>
      var claims := validate(Bytes.Encode(cookies["access"]));
      claims.Some? && claims.value.userId.Some? && r.value.value == Identity(claims.value.userId.value, claims.value.token) &&
      r.value.value.user in rows && rows[r.value.value.user].isActive
  {
    match GetAccessCookie(cookies)
    case None => header
    case Some(access) =>
      match validate(access)
      case None => Ok(None)
      case Some(claims) =>
        match GetUser(rows, claims)
        case Err(e) => Err(e)
        case Ok(user) => Ok(Some(Identity(user, claims.token)))
  }

  /** An access cookie, valid or not, decides alone: the header is never consulted. */
  lemma CookieShadowsHeader(cookies: map<string, string>, validate: seq<Bytes.Byte> -> Option<Claims>,
                            rows: map<nat, Users.UserRecord>, h1: Result<Option<Identity>, ApiError>,
                            h2: Result<Option<Identity>, ApiError>)
    requires "access" in cookies
    ensures Authenticate(cookies, validate, rows, h1) == Authenticate(cookies, validate, rows, h2)
  {
  }

  /** `request.user` for an authentication that did not raise. */
  function RequestUser(auth: Option<Identity>): (user: Requester)
    ensures user.Member? <==> auth.Some?
    ensures user.Member? ==> user.id == auth.value.user
  {
    if auth.Some? then Member(auth.value.user) else Anonymous
  }
}
