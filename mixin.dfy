/**
 * accounts/mixin.py: the helpers the login, refresh and logout views share to read the
 * refresh token from a cookie, to run a token serializer, and to answer with cookies.
 */
module CookieMixin {
  import opened Wrappers
  import opened Http

  /** get_refresh_cookie: the `refresh` cookie as sent, or InvalidToken when there is none. */
  function GetRefreshCookie(cookies: map<string, string>): (r: Result<string, ApiError>)
    ensures r.Ok? <==> "refresh" in cookies
    ensures r.Ok? ==> r.value == cookies["refresh"]
    ensures r.Err? ==> r.error == InvalidToken(InvalidTokenDetail) && Status(r.error) == 401
  {
    if "refresh" in cookies then Ok(cookies["refresh"]) else Err(InvalidToken(InvalidTokenDetail))
  }

  /** How the library's serializer validation ends: validated data, a TokenError, or another API error. */
  datatype Validation<T> = Validated(data: T) | TokenError(message: string) | Rejected(error: ApiError)

  /**
   * perform_serializer: a TokenError becomes InvalidToken with the same first argument (401);
   * any other validation error propagates unchanged; otherwise the validated data is returned.
   */
  function PerformSerializer<T>(outcome: Validation<T>): (r: Result<T, ApiError>)
    ensures outcome.Validated? <==> r.Ok?
    ensures r.Ok? ==> r.value == outcome.data
    ensures outcome.TokenError? ==> r == Err(InvalidToken(outcome.message)) && Status(r.error) == 401
    ensures outcome.Rejected? ==> r == Err(outcome.error)
  {
    match outcome
    case Validated(data) => Ok(data)
    case TokenError(message) => Err(InvalidToken(message))
    case Rejected(error) => Err(error)
  }

  /**
   * set_cookie_response: a 200 `{"detail": "success"}` response that sets one HttpOnly
   * cookie per keyword argument, named by the key and holding the value, and nothing else.
   */
  method SetCookieResponse(kwargs: map<string, string>) returns (response: Response)
    ensures response.status == 200 && response.body == SuccessBody
    ensures response.cookies.Keys == kwargs.Keys
    ensures forall k :: k in kwargs ==> response.cookies[k] == SetCookie(kwargs[k], true)
  {
    response := Response(200, SuccessBody, map[]);
    var pending := kwargs.Keys;
    while pending != {}
      invariant pending <= kwargs.Keys
      invariant response.status == 200 && response.body == SuccessBody
      invariant response.cookies.Keys == kwargs.Keys - pending
      invariant forall k :: k in response.cookies ==> response.cookies[k] == SetCookie(kwargs[k], true)
      decreases pending
    {
      var key :| key in pending;
      response := response.WithCookie(key, kwargs[key], true);
      pending := pending - {key};
    }
  }

  /** delete_cookie_response: a 200 `{"detail": "success"}` response deleting `access` and `refresh`. */
  function DeleteCookieResponse(): (response: Response)
    ensures response.status == 200 && response.body == SuccessBody
    ensures response.cookies.Keys == {"access", "refresh"}
    ensures forall k :: k in response.cookies ==> response.cookies[k] == DeleteCookie
  {
    Response(200, SuccessBody, map[]).WithoutCookie("access").WithoutCookie("refresh")
  }

  /** A client that receives the logout response keeps every cookie but `access` and `refresh`. */
  lemma DeleteCookieResponseClearsJar(jar: map<string, string>)
    ensures var after := ApplyCookies(jar, DeleteCookieResponse().cookies);
      "access" !in after && "refresh" !in after &&
      forall k :: k in jar && k != "access" && k != "refresh" ==> k in after && after[k] == jar[k]
  {
  }
}
