/**
 * The slice of HTTP and of the REST framework that the views rely on: request methods,
 * the errors the framework turns into responses, response bodies and cookie directives,
 * and how a client's cookie jar applies the directives of a response.
 */
module Http {

  datatype Method = GET | HEAD | OPTIONS | POST | PUT | PATCH | DELETE

  /** The framework's SAFE_METHODS: GET, HEAD and OPTIONS. */
  predicate IsSafe(m: Method) {
    m == GET || m == HEAD || m == OPTIONS
  }

  /** Exceptions a view can raise, and the status code the framework answers each with. */
  datatype ApiError =
    | InvalidToken(detail: string)          // 401, SimpleJWT's InvalidToken
    | AuthenticationFailed(code: string)    // 401, e.g. "no_active_account"
    | NotAuthenticated                      // 401, a permission refused to an anonymous caller
    | PermissionDenied                      // 403, a permission refused to a signed-in caller
    | NotFound                              // 404, get_object_or_404
    | ValidationError(detail: string)       // 400, serializer validation
    | ServerError                           // 500, an exception the framework does not handle

  function Status(e: ApiError): (code: int)
    ensures 400 <= code < 600
  {
    match e
    case InvalidToken(_) => 401
    case AuthenticationFailed(_) => 401
    case NotAuthenticated => 401
    case PermissionDenied => 403
    case NotFound => 404
    case ValidationError(_) => 400
    case ServerError => 500
  }

  /** The default detail of InvalidToken when it is raised without an argument. */
  const InvalidTokenDetail: string := "Token is invalid or expired"

  /** JSON values, as they appear in a serialized body. */
  datatype Json = JInt(i: int) | JStr(s: string) | JBool(b: bool)

  /** What a response asks the client to do with one cookie. */
  datatype CookieDirective = SetCookie(value: string, httpOnly: bool) | DeleteCookie

  datatype Response = Response(status: int, body: map<string, Json>, cookies: map<string, CookieDirective>)
  {
    /** `response.set_cookie(key, value, httponly=...)`: a later directive for the same key replaces an earlier one. */
    function WithCookie(key: string, value: string, httpOnly: bool): (r: Response)
      ensures r.status == status && r.body == body
      ensures r.cookies == cookies[key := SetCookie(value, httpOnly)]
    {
      this.(cookies := cookies[key := SetCookie(value, httpOnly)])
    }

    /** `response.delete_cookie(key)`: an expired Set-Cookie for the key. */
    function WithoutCookie(key: string): (r: Response)
      ensures r.status == status && r.body == body
      ensures r.cookies == cookies[key := DeleteCookie]
    {
      this.(cookies := cookies[key := DeleteCookie])
    }
  }

  /** The body `{"detail": "success"}` shared by the cookie-handling responses. */
  const SuccessBody: map<string, Json> := map["detail" := JStr("success")]

  /**
   * A browser's cookie jar after it receives a response: every cookie the response sets is
   * stored, every cookie it deletes (an expired Set-Cookie) is dropped, the rest is kept.
   */
  function ApplyCookies(jar: map<string, string>, directives: map<string, CookieDirective>): (r: map<string, string>)
    ensures forall k :: k in directives && directives[k].SetCookie? ==> k in r && r[k] == directives[k].value
    ensures forall k :: k in directives && directives[k].DeleteCookie? ==> k !in r
    ensures forall k :: k !in directives ==> (k in r <==> k in jar) && (k in jar ==> r[k] == jar[k])
  {
    map k | k in (jar.Keys + directives.Keys) && (k in directives ==> directives[k].SetCookie?) ::
      if k in directives then directives[k].value else jar[k]
  }

  /** `request.user`: the anonymous user, or the signed-in user with this id. */
  datatype Requester = Anonymous | Member(id: nat)

  /**
   * The error a refused permission becomes: NotAuthenticated (401) when no authenticator
   * succeeded, PermissionDenied (403) for a signed-in caller.
   */
  function Refusal(user: Requester): (e: ApiError)
    ensures user.Anonymous? <==> Status(e) == 401
    ensures user.Member? <==> Status(e) == 403
  {
    if user.Anonymous? then NotAuthenticated else PermissionDenied
  }
}
