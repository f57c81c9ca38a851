/**
 * accounts/views.py: the JWT cookie session. The client's cookie jar holds the `access` and
 * `refresh` tokens; the token library keeps the set of outstanding refresh tokens and the set
 * of blacklisted ones. Login, refresh, logout and the profile endpoints move that state step by
 * step, and e-mail verification activates an account.
 */
module AccountViews {
  import opened Wrappers
  import opened Http
  import opened CookieMixin
  import Bytes
  import CookieAuthentication
  import AccountPermissions
  import Users
  import UserSerializers
  import Uid
  import Base64Url
  import Posts
  import opened CharFields

  /**
   * What the token library decides for one request: whether a refresh token's signature and
   * expiry check out, how an access token validates, and what header authentication yields.
   */
  datatype Jwt = Jwt(
    verify: string -> bool,
    validate: seq<Bytes.Byte> -> Option<CookieAuthentication.Claims>,
    header: Result<Option<CookieAuthentication.Identity>, ApiError>)

  /** Header authentication resolves tokens through the same get_user: an active, existing user. */
  predicate HeaderSound(jwt: Jwt, rows: map<nat, Users.UserRecord>) {
    jwt.header.Ok? && jwt.header.value.Some? ==>
      jwt.header.value.value.user in rows && rows[jwt.header.value.value.user].isActive
  }

  /** The validated data of the obtain-pair and refresh serializers. */
  datatype TokenPair = TokenPair(access: string, refresh: string)

  function PairData(p: TokenPair): (m: map<string, string>)
    ensures m.Keys == {"access", "refresh"} && m["access"] == p.access && m["refresh"] == p.refresh
  {
    map["access" := p.access, "refresh" := p.refresh]
  }

  const BlacklistedDetail: string := "Token is blacklisted"

  /**
   * `RefreshToken(token)`: None when the token can be used, otherwise the message of the
   * TokenError it raises (a bad signature or expiry is reported before the blacklist).
   */
  function RefreshTokenError(token: string, blacklisted: set<string>, verify: string -> bool): (e: Option<string>)
    ensures e.None? <==> verify(token) && token !in blacklisted
    ensures e.Some? && !verify(token) ==> e.value == InvalidTokenDetail
    ensures e.Some? && verify(token) ==> e.value == BlacklistedDetail
  {
    if !verify(token) then Some(InvalidTokenDetail)
    else if token in blacklisted then Some(BlacklistedDetail)
    else None
  }

  /**
   * How the refresh and blacklist serializers treat the refresh cookie's value: their `refresh`
   * CharField trims it and refuses it blank or holding a NUL (400); then `RefreshToken` refuses
   * a token that fails verification or is blacklisted. The validated value is the trimmed token.
   */
  function RefreshField(cookie: string, blacklisted: set<string>, verify: string -> bool): (r: Validation<string>)
    ensures IsBlank(cookie) ==> r == Rejected(ValidationError(BlankMessage))
    ensures !IsBlank(cookie) && !Acceptable(cookie) ==> r == Rejected(ValidationError(NullMessage))
    ensures Acceptable(cookie) && RefreshTokenError(Trim(cookie), blacklisted, verify).Some? ==>
      r == TokenError(RefreshTokenError(Trim(cookie), blacklisted, verify).value)
    ensures r.Validated? <==> Acceptable(cookie) && RefreshTokenError(Trim(cookie), blacklisted, verify).None?
    ensures r.Validated? ==> r.data == Trim(cookie) && r.data != ""
  {
    match CleanText(cookie)
    case Err(e) => Rejected(e)
    case Ok(token) =>
      match RefreshTokenError(token, blacklisted, verify)
      case Some(message) => TokenError(message)
      case None => Validated(token)
  }

  /**
   * The refresh token the refresh and logout views work with: get_refresh_cookie, then the
   * serializer's field check through perform_serializer. A missing cookie is InvalidToken (401),
   * a blank one or one holding a NUL a ValidationError (400), one the library refuses
   * InvalidToken with the library's message (401); otherwise the trimmed cookie.
   */
  function CookieRefreshToken(jar: map<string, string>, blacklisted: set<string>, verify: string -> bool)
    : (r: Result<string, ApiError>)
    ensures "refresh" !in jar ==> r == Err(InvalidToken(InvalidTokenDetail))
    ensures "refresh" in jar && IsBlank(jar["refresh"]) ==> r == Err(ValidationError(BlankMessage))
    ensures "refresh" in jar && !IsBlank(jar["refresh"]) && !Acceptable(jar["refresh"]) ==> r == Err(ValidationError(NullMessage))
    ensures "refresh" in jar && Acceptable(jar["refresh"]) && RefreshTokenError(Trim(jar["refresh"]), blacklisted, verify).Some? ==>
      r == Err(InvalidToken(RefreshTokenError(Trim(jar["refresh"]), blacklisted, verify).value))
    ensures r.Ok? <==> "refresh" in jar && Acceptable(jar["refresh"]) && RefreshTokenError(Trim(jar["refresh"]), blacklisted, verify).None?
    ensures r.Ok? ==> r.value == Trim(jar["refresh"]) && r.value != "" && r.value !in blacklisted
  {
    match GetRefreshCookie(jar)
    case Err(e) => Err(e)
    case Ok(cookie) => PerformSerializer(RefreshField(cookie, blacklisted, verify))
  }

  /** What blacklisted_token does, as written, with the refresh cookie. */
  datatype ResetStep = Skip | BlacklistToken(token: string) | Crash

  /**
   * blacklisted_token as written: an absent or empty cookie is skipped; any other value goes
   * to `RefreshToken(refresh).blacklist()` unguarded, so a value the library refuses raises a
   * TokenError, which is not an API exception and ends the request with a server error.
   */
  function AsWrittenStep(cookies: map<string, string>, blacklisted: set<string>, verify: string -> bool): (s: ResetStep)
    ensures s.Skip? <==> "refresh" !in cookies || cookies["refresh"] == ""
    ensures s.BlacklistToken? ==> s.token == cookies["refresh"] && RefreshTokenError(s.token, blacklisted, verify).None?
    ensures s.Crash? <==> "refresh" in cookies && cookies["refresh"] != "" && RefreshTokenError(cookies["refresh"], blacklisted, verify).Some?
  {
    if "refresh" !in cookies || cookies["refresh"] == "" then Skip
    else if RefreshTokenError(cookies["refresh"], blacklisted, verify).Some? then Crash
    else BlacklistToken(cookies["refresh"])
  }

  /**
   * The intended reset: a refresh cookie the library accepts is blacklisted; one it refuses
   * is already unusable and is left alone.
   */
  function IntendedStep(cookies: map<string, string>, blacklisted: set<string>, verify: string -> bool): (s: ResetStep)
    ensures !s.Crash?
    ensures s.BlacklistToken? <==> "refresh" in cookies && RefreshTokenError(cookies["refresh"], blacklisted, verify).None?
    ensures s.BlacklistToken? ==> s.token == cookies["refresh"]
  {
    if "refresh" in cookies && RefreshTokenError(cookies["refresh"], blacklisted, verify).None? then
      BlacklistToken(cookies["refresh"])
    else Skip
  }

  /**
   * A profile update sent with a valid access cookie and a refresh cookie the library no
   * longer accepts (here one already blacklisted) ends in a server error under the code as
   * written, after the update is saved and without deleting either cookie; the intended reset
   * goes through.
   */
  lemma StaleRefreshCookieCrashes(verify: string -> bool)
    requires verify("r1")
    ensures AsWrittenStep(map["access" := "a1", "refresh" := "r1"], {"r1"}, verify) == Crash
    ensures IntendedStep(map["access" := "a1", "refresh" := "r1"], {"r1"}, verify) == Skip
    ensures RefreshTokenError("r1", {"r1"}, verify) == Some(BlacklistedDetail)
  {
  }

  /** After the intended reset, the refresh token the client sent can no longer be used. */
  lemma IntendedStepRevokes(cookies: map<string, string>, blacklisted: set<string>, verify: string -> bool)
    requires "refresh" in cookies
    ensures var s := IntendedStep(cookies, blacklisted, verify);
      var after := if s.BlacklistToken? then blacklisted + {s.token} else blacklisted;
      RefreshTokenError(cookies["refresh"], after, verify).Some?
  {
  }

  /** The session as the server and one client see it. */
  class Session {
    var jar: map<string, string>
    var outstanding: set<string>
    var blacklisted: set<string>

    /** A blacklisted token is always an outstanding one (blacklist rows reference outstanding rows). */
    ghost predicate Valid()
      reads this
    {
      blacklisted <= outstanding
    }

    constructor ()
      ensures Valid() && jar == map[] && outstanding == {} && blacklisted == {}
    {
      jar := map[];
      outstanding := {};
      blacklisted := {};
    }

    /**
     * The library's promise for a newly minted pair: two distinct tokens, neither outstanding
     * nor held by the client already.
     */
    predicate Fresh(p: TokenPair)
      reads this
    {
      && p.access != p.refresh
      && p.access !in outstanding && p.refresh !in outstanding
      && p.access !in jar.Values && p.refresh !in jar.Values
    }

    /**
     * The request's authentication, which the framework runs before the views that have an
     * authentication class: the profile views (the project's default class) and logout. The
     * login and refresh views inherit none from the token library's base view, and e-mail
     * verification declares none.
     */
    function Auth(jwt: Jwt, rows: map<nat, Users.UserRecord>): (r: Result<Option<CookieAuthentication.Identity>, ApiError>)
      reads this
      ensures HeaderSound(jwt, rows) && r.Ok? && r.value.Some? ==> r.value.value.user in rows && rows[r.value.value.user].isActive
    {
      CookieAuthentication.Authenticate(jar, jwt.validate, rows, jwt.header)
    }

    /** `RefreshToken(t).blacklist()`: get_or_create of the outstanding row, then the blacklist row. */
    method Blacklist(t: string)
      requires Valid()
      modifies this`outstanding, this`blacklisted
      ensures Valid()
      ensures outstanding == old(outstanding) + {t} && blacklisted == old(blacklisted) + {t}
    {
      outstanding := outstanding + {t};
      blacklisted := blacklisted + {t};
    }

    /** The client stores the cookies a response sets and drops the ones it deletes. */
    method Receive(response: Response)
      modifies this`jar
      ensures jar == ApplyCookies(old(jar), response.cookies)
    {
      jar := ApplyCookies(jar, response.cookies);
    }

    /**
     * set_cookie_response with the pair, received by the client: both tokens land in the jar as
     * HttpOnly cookies and every other cookie stays.
     */
    method SendPairCookies(pair: TokenPair) returns (response: Response)
      modifies this`jar
      ensures response.status == 200 && response.body == SuccessBody
      ensures response.cookies == map["access" := SetCookie(pair.access, true), "refresh" := SetCookie(pair.refresh, true)]
      ensures "access" in jar && jar["access"] == pair.access && "refresh" in jar && jar["refresh"] == pair.refresh
      ensures forall k :: k in old(jar) && k != "access" && k != "refresh" ==> k in jar && jar[k] == old(jar)[k]
    {
      response := SetCookieResponse(PairData(pair));
      assert response.cookies == map["access" := SetCookie(pair.access, true), "refresh" := SetCookie(pair.refresh, true)];
      Receive(response);
    }

    /** delete_cookie_response, received by the client: both tokens leave the jar, nothing else does. */
    method SendDeleteCookies() returns (response: Response)
      modifies this`jar
      ensures response == DeleteCookieResponse()
      ensures "access" !in jar && "refresh" !in jar
      ensures forall k :: k in old(jar) && k != "access" && k != "refresh" ==> k in jar && jar[k] == old(jar)[k]
    {
      response := DeleteCookieResponse();
      Receive(response);
    }

    /**
     * LoginAPIView.post: the obtain-pair serializer checks the credentials and mints a pair
     * whose refresh token becomes outstanding; the response sets exactly those two tokens as
     * HttpOnly cookies and says only "success".
     */
    method Login(obtained: Validation<TokenPair>)
      returns (r: Result<Response, ApiError>)
      requires Valid()
      requires obtained.Validated? ==> Fresh(obtained.data)
      modifies this
      ensures Valid()
      ensures obtained.TokenError? ==> r == Err(InvalidToken(obtained.message))
      ensures obtained.Rejected? ==> r == Err(obtained.error)
      ensures r.Ok? <==> obtained.Validated?
      ensures r.Err? ==> jar == old(jar) && outstanding == old(outstanding) && blacklisted == old(blacklisted)
      ensures r.Ok? ==> r.value.status == 200 && r.value.body == SuccessBody
      ensures r.Ok? ==> r.value.cookies == map["access" := SetCookie(obtained.data.access, true), "refresh" := SetCookie(obtained.data.refresh, true)]
      ensures r.Ok? ==> "access" in jar && jar["access"] == obtained.data.access && "refresh" in jar && jar["refresh"] == obtained.data.refresh
      ensures r.Ok? ==> forall k :: k in old(jar) && k != "access" && k != "refresh" ==> k in jar && jar[k] == old(jar)[k]
      ensures r.Ok? ==> outstanding == old(outstanding) + {obtained.data.refresh} && blacklisted == old(blacklisted)
    {
      var serializer := PerformSerializer(obtained);
      if serializer.Err? {
        return Err(serializer.error);
      }
      outstanding := outstanding + {serializer.value.refresh};
      var response := SendPairCookies(serializer.value);
      r := Ok(response);
    }

    /**
     * CustomTokenRefreshView.post: the refresh token comes from the cookie only, and the
     * serializer's `refresh` CharField trims it and refuses it blank (400). With rotation and
     * blacklist-after-rotation on, the old token is blacklisted, a new pair is issued, and both
     * cookies are replaced with values different from the old ones.
     */
    method Refresh(verify: string -> bool, minted: TokenPair)
      returns (r: Result<Response, ApiError>)
      requires Valid() && Fresh(minted)
      modifies this
      ensures Valid()
      ensures var t := old(CookieRefreshToken(jar, blacklisted, verify));
        && (t.Err? ==> r == Err(t.error) && jar == old(jar) && outstanding == old(outstanding) && blacklisted == old(blacklisted))
        && (r.Ok? <==> t.Ok?)
        && (r.Ok? ==> blacklisted == old(blacklisted) + {t.value} && outstanding == old(outstanding) + {t.value, minted.refresh})
        && (r.Ok? ==> RefreshTokenError(t.value, blacklisted, verify).Some?)
      ensures r.Ok? ==> r.value.status == 200 && r.value.body == SuccessBody
      ensures r.Ok? ==> "access" in jar && jar["access"] == minted.access && "refresh" in jar && jar["refresh"] == minted.refresh
      ensures r.Ok? ==> jar["refresh"] != old(jar)["refresh"] && ("access" in old(jar) ==> jar["access"] != old(jar)["access"])
      ensures r.Ok? ==> forall k :: k in old(jar) && k != "access" && k != "refresh" ==> k in jar && jar[k] == old(jar)[k]
    {
      var token := CookieRefreshToken(jar, blacklisted, verify);
      if token.Err? {
        return Err(token.error);
      }
      var response := Rotate(token.value, minted);
      r := Ok(response);
    }

    /**
     * The rotation the refresh serializer performs once the old token checks out: the old token
     * is blacklisted, the new refresh token becomes outstanding, and the new pair replaces both
     * cookies. Fresh tokens differ from every cookie the client held.
     */
    method Rotate(used: string, minted: TokenPair) returns (response: Response)
      requires Valid() && Fresh(minted)
      modifies this
      ensures Valid()
      ensures blacklisted == old(blacklisted) + {used} && outstanding == old(outstanding) + {used, minted.refresh}
      ensures response.status == 200 && response.body == SuccessBody
      ensures "access" in jar && jar["access"] == minted.access && "refresh" in jar && jar["refresh"] == minted.refresh
      ensures "refresh" in old(jar) ==> jar["refresh"] != old(jar)["refresh"]
      ensures "access" in old(jar) ==> jar["access"] != old(jar)["access"]
      ensures forall k :: k in old(jar) && k != "access" && k != "refresh" ==> k in jar && jar[k] == old(jar)[k]
    {
      assert "refresh" in jar ==> jar["refresh"] in jar.Values;
      assert "access" in jar ==> jar["access"] in jar.Values;
      Blacklist(used);
      outstanding := outstanding + {minted.refresh};
      response := SendPairCookies(minted);
    }

    /**
     * LogoutAPIView.post: only a caller authenticated by `JWTCookieAuthentication` only (the
     * access cookie, or the header when there is no access cookie) may log out; the refresh
     * cookie is required, must be neither blank once trimmed nor hold a NUL (400) and must be
     * usable; it is blacklisted and both cookies are deleted.
     */
    method Logout(jwt: Jwt, rows: map<nat, Users.UserRecord>) returns (r: Result<Response, ApiError>)
      requires Valid()
      modifies this
      ensures Valid()
      ensures old(Auth(jwt, rows)).Err? ==> r == Err(old(Auth(jwt, rows)).error)
      ensures old(Auth(jwt, rows)) == Ok(None) ==> r == Err(NotAuthenticated)
      ensures var t := old(CookieRefreshToken(jar, blacklisted, jwt.verify));
        && (old(Auth(jwt, rows)).Ok? && old(Auth(jwt, rows)).value.Some? && t.Err? ==> r == Err(t.error))
        && (r.Ok? <==> old(Auth(jwt, rows)).Ok? && old(Auth(jwt, rows)).value.Some? && t.Ok?)
        && (r.Ok? ==> blacklisted == old(blacklisted) + {t.value} && outstanding == old(outstanding) + {t.value})
        && (r.Ok? ==> RefreshTokenError(t.value, blacklisted, jwt.verify).Some?)
      ensures r.Err? ==> jar == old(jar) && outstanding == old(outstanding) && blacklisted == old(blacklisted)
      ensures r.Ok? ==> r.value == DeleteCookieResponse()
      ensures r.Ok? ==> "access" !in jar && "refresh" !in jar
      ensures r.Ok? ==> forall k :: k in old(jar) && k != "access" && k != "refresh" ==> k in jar && jar[k] == old(jar)[k]
    {
      var auth := CookieAuthentication.Authenticate(jar, jwt.validate, rows, jwt.header);
      if auth.Err? {
        return Err(auth.error);
      }
      var user := CookieAuthentication.RequestUser(auth.value);
      if !user.Member? {
        return Err(Refusal(user));
      }
      var token := CookieRefreshToken(jar, blacklisted, jwt.verify);
      if token.Err? {
        return Err(token.error);
      }
      Blacklist(token.value);
      var response := SendDeleteCookies();
      r := Ok(response);
    }

    /**
     * blacklisted_token as written: the step AsWrittenStep picks, then both cookies deleted
     * from the response, unless the step raised.
     */
    method BlacklistedToken(response: Response, verify: string -> bool) returns (r: Result<Response, ApiError>)
      requires Valid()
      modifies this`outstanding, this`blacklisted
      ensures Valid()
      ensures var s := AsWrittenStep(jar, old(blacklisted), verify);
        && (s.Crash? ==> r == Err(ServerError) && outstanding == old(outstanding) && blacklisted == old(blacklisted))
        && (s.Skip? ==> outstanding == old(outstanding) && blacklisted == old(blacklisted))
        && (s.BlacklistToken? ==> outstanding == old(outstanding) + {s.token} && blacklisted == old(blacklisted) + {s.token})
        && (!s.Crash? ==> r == Ok(response.WithoutCookie("refresh").WithoutCookie("access")))
    {
      match AsWrittenStep(jar, blacklisted, verify) {
        case Crash => return Err(ServerError);
        case Skip =>
        case BlacklistToken(t) => Blacklist(t);
      }
      r := Ok(response.WithoutCookie("refresh").WithoutCookie("access"));
    }

    /**
     * The reset the profile views intend: a usable refresh cookie is blacklisted and both
     * cookies are deleted from the response, always, so the refresh token the client sent
     * cannot be used again.
     */
    method ResetTokens(response: Response, verify: string -> bool) returns (r: Response)
      requires Valid()
      modifies this`outstanding, this`blacklisted
      ensures Valid()
      ensures r == response.WithoutCookie("refresh").WithoutCookie("access")
      ensures var s := IntendedStep(jar, old(blacklisted), verify);
        && (s.Skip? ==> outstanding == old(outstanding) && blacklisted == old(blacklisted))
        && (s.BlacklistToken? ==> outstanding == old(outstanding) + {s.token} && blacklisted == old(blacklisted) + {s.token})
      ensures "refresh" in jar ==> RefreshTokenError(jar["refresh"], blacklisted, verify).Some?
    {
      var s := IntendedStep(jar, blacklisted, verify);
      if s.BlacklistToken? {
        Blacklist(s.token);
      }
      if "refresh" in jar {
        IntendedStepRevokes(jar, old(blacklisted), verify);
      }
      r := response.WithoutCookie("refresh").WithoutCookie("access");
    }

    /**
     * The reset that closes a profile change, as the client receives it: the token tables
     * move as ResetTokens moves them, the response deletes both token cookies, and the jar
     * loses exactly those two cookies.
     */
    method ResetAndClear(response: Response, verify: string -> bool) returns (r: Response)
      requires Valid() && response.cookies == map[]
      modifies this
      ensures Valid()
      ensures r == response.(cookies := map["refresh" := DeleteCookie, "access" := DeleteCookie])
      ensures jar == old(jar) - {"access", "refresh"}
      ensures var s := IntendedStep(old(jar), old(blacklisted), verify);
        && (s.Skip? ==> outstanding == old(outstanding) && blacklisted == old(blacklisted))
        && (s.BlacklistToken? ==> outstanding == old(outstanding) + {s.token} && blacklisted == old(blacklisted) + {s.token})
      ensures "refresh" in old(jar) ==> RefreshTokenError(old(jar)["refresh"], blacklisted, verify).Some?
    {
      r := ResetTokens(response, verify);
      Receive(r);
      assert jar.Keys == old(jar).Keys - {"access", "refresh"};
    }

    /** UserAPIView.get_object is `request.user`; the profile views act on that row only. */
    method Requester(jwt: Jwt, rows: map<nat, Users.UserRecord>, verb: Method) returns (r: Result<nat, ApiError>)
      requires HeaderSound(jwt, rows) && verb != POST
      ensures Auth(jwt, rows).Err? ==> r == Err(Auth(jwt, rows).error)
      ensures Auth(jwt, rows) == Ok(None) ==> r == Err(NotAuthenticated)
      ensures r.Ok? <==> Auth(jwt, rows).Ok? && Auth(jwt, rows).value.Some?
      ensures r.Ok? ==> r.value == Auth(jwt, rows).value.value.user && r.value in rows && rows[r.value].isActive
    {
      var auth := Auth(jwt, rows);
      if auth.Err? {
        return Err(auth.error);
      }
      var user := CookieAuthentication.RequestUser(auth.value);
      if !AccountPermissions.HasPermission(verb, user) {
        return Err(Refusal(user));
      }
      r := Ok(user.id);
    }

    /** UserAPIView GET: the requester's own representation. */
    method Retrieve(jwt: Jwt, rows: map<nat, Users.UserRecord>) returns (r: Result<Response, ApiError>)
      requires HeaderSound(jwt, rows)
      ensures r.Err? <==> Auth(jwt, rows).Err? || Auth(jwt, rows) == Ok(None)
      ensures Auth(jwt, rows) == Ok(None) ==> r == Err(NotAuthenticated)
      ensures r.Ok? ==> var id := Auth(jwt, rows).value.value.user;
        id in rows && r.value == Response(200, UserSerializers.Representation(rows[id]), map[])
    {
      var id := Requester(jwt, rows, GET);
      if id.Err? {
        return Err(id.error);
      }
      r := Ok(Response(200, UserSerializers.Representation(rows[id.value]), map[]));
    }

    /**
     * UserAPIView PUT/PATCH: the requester's own row, validated (all fields for PUT), updated
     * with the password hashed; then the tokens are reset and both cookies deleted.
     */
    method UpdateProfile(users: Users.UserTable, jwt: Jwt, data: map<string, string>, partial: bool, hash: string -> string)
      returns (r: Result<Response, ApiError>)
      requires Valid() && users.Valid() && HeaderSound(jwt, users.rows)
      modifies this, users`rows
      ensures Valid() && users.Valid()
      ensures old(Auth(jwt, users.rows)).Err? ==> r == Err(old(Auth(jwt, users.rows)).error)
      ensures old(Auth(jwt, users.rows)) == Ok(None) ==> r == Err(NotAuthenticated)
      ensures r.Err? ==> users.rows == old(users.rows) && jar == old(jar) && outstanding == old(outstanding) && blacklisted == old(blacklisted)
      ensures old(Auth(jwt, users.rows)).Ok? && old(Auth(jwt, users.rows)).value.Some? ==>
        var id := old(Auth(jwt, users.rows)).value.value.user;
        var check := UserSerializers.ValidateUser(old(users.rows), Some(id), data, partial);
        && (check.Err? ==> r == Err(check.error))
        && (check.Ok? ==> r.Ok? && id in old(users.rows))
      ensures r.Ok? ==>
        var id := old(Auth(jwt, users.rows)).value.value.user;
        var fields := UserSerializers.ValidateUser(old(users.rows), Some(id), data, partial).value;
        var updated := UserSerializers.ApplyUpdate(old(users.rows)[id], UserSerializers.HashPassword(fields, hash));
        && users.rows == old(users.rows)[id := updated]
        && r.value.status == 200 && r.value.body == UserSerializers.Representation(updated)
        && r.value.cookies == map["refresh" := DeleteCookie, "access" := DeleteCookie]
      ensures r.Ok? ==> jar == old(jar) - {"access", "refresh"}
      ensures r.Ok? ==> var s := IntendedStep(old(jar), old(blacklisted), jwt.verify);
        && (s.Skip? ==> outstanding == old(outstanding) && blacklisted == old(blacklisted))
        && (s.BlacklistToken? ==> outstanding == old(outstanding) + {s.token} && blacklisted == old(blacklisted) + {s.token})
      ensures r.Ok? && "refresh" in old(jar) ==> RefreshTokenError(old(jar)["refresh"], blacklisted, jwt.verify).Some?
    {
      var id := Requester(jwt, users.rows, if partial then PATCH else PUT);
      if id.Err? {
        return Err(id.error);
      }
      var check := UserSerializers.ValidateUser(users.rows, Some(id.value), data, partial);
      if check.Err? {
        return Err(check.error);
      }
      var updated := UserSerializers.ApplyUpdate(users.rows[id.value], UserSerializers.HashPassword(check.value, hash));
      users.Save(updated);
      var response := Response(200, UserSerializers.Representation(updated), map[]);
      response := ResetAndClear(response, jwt.verify);
      r := Ok(response);
    }

    /**
     * UserAPIView DELETE: the requester's own row is deleted, and with it every post they own;
     * then the tokens are reset and both cookies deleted.
     */
    method DeleteProfile(users: Users.UserTable, board: Posts.Board, jwt: Jwt)
      returns (r: Result<Response, ApiError>)
      requires Valid() && users.Valid() && board.Valid() && HeaderSound(jwt, users.rows)
      modifies this, users`rows, board`rows
      ensures Valid() && users.Valid() && board.Valid()
      ensures old(Auth(jwt, users.rows)).Err? ==> r == Err(old(Auth(jwt, users.rows)).error)
      ensures old(Auth(jwt, users.rows)) == Ok(None) ==> r == Err(NotAuthenticated)
      ensures r.Ok? <==> old(Auth(jwt, users.rows)).Ok? && old(Auth(jwt, users.rows)).value.Some?
      ensures r.Err? ==> users.rows == old(users.rows) && board.rows == old(board.rows)
      ensures r.Err? ==> jar == old(jar) && outstanding == old(outstanding) && blacklisted == old(blacklisted)
      ensures r.Ok? ==>
        var id := old(Auth(jwt, users.rows)).value.value.user;
        && id in old(users.rows)
        && users.rows == old(users.rows) - {id}
        && board.rows == (map p | p in old(board.rows) && old(board.rows)[p].owner != id :: old(board.rows)[p])
        && r.value.status == 204 && r.value.cookies == map["refresh" := DeleteCookie, "access" := DeleteCookie]
      ensures r.Ok? ==> jar == old(jar) - {"access", "refresh"}
      ensures r.Ok? ==> var s := IntendedStep(old(jar), old(blacklisted), jwt.verify);
        && (s.Skip? ==> outstanding == old(outstanding) && blacklisted == old(blacklisted))
        && (s.BlacklistToken? ==> outstanding == old(outstanding) + {s.token} && blacklisted == old(blacklisted) + {s.token})
      ensures r.Ok? && "refresh" in old(jar) ==> RefreshTokenError(old(jar)["refresh"], blacklisted, jwt.verify).Some?
    {
      var id := Requester(jwt, users.rows, DELETE);
      if id.Err? {
        return Err(id.error);
      }
      board.DeleteOwnerPosts(id.value);
      users.Remove(id.value);
      var response := Response(204, map[], map[]);
      response := ResetAndClear(response, jwt.verify);
      r := Ok(response);
    }

    /**
     * UserAPIView POST (registration): open to anyone, though a failing authentication still
     * answers 401; a valid body creates an inactive user with the hashed password and queues
     * one verification mail; the answer is 201 with the new user's representation.
     */
    method Register(users: Users.UserTable, queue: UserSerializers.MailQueue, jwt: Jwt, data: map<string, string>,
                    generator: UserSerializers.TokenGenerator, normalize: string -> string, hash: string -> string)
      returns (r: Result<Response, ApiError>)
      requires users.Valid()
      modifies users, queue
      ensures users.Valid()
      ensures old(Auth(jwt, users.rows)).Err? ==> r == Err(old(Auth(jwt, users.rows)).error)
      ensures old(Auth(jwt, users.rows)).Ok? ==>
        var check := UserSerializers.ValidateUser(old(users.rows), None, data, false);
        && (check.Err? ==> r == Err(check.error))
        && (check.Ok? <==> r.Ok?)
      ensures r.Err? ==> users.rows == old(users.rows) && users.nextId == old(users.nextId) && queue.sent == old(queue.sent)
      ensures r.Ok? ==>
        var fields := UserSerializers.ValidateUser(old(users.rows), None, data, false).value;
        var id := old(users.nextId);
        var user := Users.NewUser(id, fields["username"], fields["email"], fields["fullname"], Some(fields["password"]),
                                  Users.ExtraFields(None, None, None), normalize, hash);
        && id !in old(users.rows) && users.rows == old(users.rows)[id := user] && !user.isActive
        && users.nextId == id + 1
        && queue.sent == old(queue.sent) + [UserSerializers.Mail(user.username, user.email, UserSerializers.VerificationUrl(id, generator.make(user)))]
        && r.value == Response(201, UserSerializers.Representation(user), map[])
    {
      var auth := Auth(jwt, users.rows);
      if auth.Err? {
        return Err(auth.error);
      }
      // IsPostOrIsAuthenticated admits every POST (AccountPermissions.HasPermission).
      var check := UserSerializers.ValidateUser(users.rows, None, data, false);
      if check.Err? {
        return Err(check.error);
      }
      var user := UserSerializers.Create(users, queue, check.value, generator, normalize, hash);
      r := Ok(Response(201, UserSerializers.Representation(user), map[]));
    }
  }

  const VerifiedSuffix: string := "님의 이메일 인증이 완료되었습니다."

  /**
   * EmailVerificationView.get: no authentication; a link that passes EmailVerificationSerializer
   * activates that user and answers 200 with a message naming them. Nothing else changes.
   */
  method VerifyEmail(users: Users.UserTable, uidb64: string, token: string, generator: UserSerializers.TokenGenerator)
    returns (r: Result<Response, ApiError>)
    requires users.Valid()
    modifies users`rows
    ensures users.Valid()
    ensures var v := UserSerializers.ValidateVerification(old(users.rows), uidb64, token, generator);
      && (v.Err? ==> r == Err(v.error) && users.rows == old(users.rows))
      && (v.Ok? ==> r.Ok? && users.rows == old(users.rows)[v.value.user.id := v.value.user.(isActive := true)])
      && (v.Ok? ==> r.value == Response(200, map["detail" := JStr(v.value.user.username + VerifiedSuffix)], map[]))
  {
    var v := UserSerializers.ValidateVerification(users.rows, uidb64, token, generator);
    if v.Err? {
      return Err(v.error);
    }
    var user := v.value.user;
    user := user.(isActive := true);
    users.Save(user);
    r := Ok(Response(200, map["detail" := JStr(user.username + VerifiedSuffix)], map[]));
  }

  /**
   * The link mailed at registration leads back to the verification view with the new user's
   * encoded id and the token, and it passes verification whenever the token generator accepts
   * that token for the user.
   */
  lemma VerificationLinkActivates(rows: map<nat, Users.UserRecord>, id: nat, token: string,
                                  generator: UserSerializers.TokenGenerator)
    requires id in rows && token != "" && '/' !in token && '\0' !in token && generator.check(rows[id], token)
    requires !IsSpace(token[0]) && !IsSpace(token[|token| - 1])
    ensures UserSerializers.ActivationRoute(UserSerializers.VerificationUrl(id, token)) == Some((Uid.EncodeUid(id), token))
    ensures UserSerializers.ValidateVerification(rows, Uid.EncodeUid(id), token, generator) ==
      Ok(UserSerializers.Verified(Uid.EncodeUid(id), token, rows[id]))
  {
    UserSerializers.VerificationLinkRoundTrip(id, token);
    EncodedUidIsClean(id);
    Uid.DecodeEncodeUid(id);
    assert Trim(token) == token && Acceptable(token);
  }

  /** An encoded uid passes its CharField unchanged: it is URL-safe Base64, with no space and no NUL. */
  lemma EncodedUidIsClean(id: nat)
    ensures var uid := Uid.EncodeUid(id); Acceptable(uid) && Trim(uid) == uid
  {
    var uid := Uid.EncodeUid(id);
    assert !IsSpace(uid[0]) && !IsSpace(uid[|uid| - 1]) by {
      assert Base64Url.IsUrlSafeChar(uid[0]) && Base64Url.IsUrlSafeChar(uid[|uid| - 1]);
    }
    assert Trim(uid) == uid && !AllSpace(uid);
    assert '\0' !in uid by {
      assert !Base64Url.IsUrlSafeChar('\0');
    }
  }
}
