/** `POST /api/auth/refresh`: a new access token, delivered only as a cookie. */
module RefreshRoute {
  import opened Common
  import opened AuthHttp

  /** The route; `refresh` is Cognito's `REFRESH_TOKEN_AUTH` call. */
  function Post(cookies: Cookies, refresh: string -> Outcome<InitiateAuthResponse>): (r: Response)
    ensures r.Json? && r.status in {200, 401, 500}
    ensures !r.body.WithToken?
    ensures !Truthy(CookieValue(cookies, "refreshToken")) ==> r.status == 401 && r.cookies == []
    ensures r.status == 200 <==> r.cookies != []
    ensures r.status == 200 ==>
              var outcome := refresh(CookieValue(cookies, "refreshToken").value);
              outcome.Returned? && IssuedAccessToken(outcome.value).Some?
              && r.cookies == [AccessCookie(IssuedAccessToken(outcome.value).value)] && r.cookies[0].maxAge == 900
  {
    var refreshToken := CookieValue(cookies, "refreshToken");
    if !Truthy(refreshToken) then
      Json(401, Message("リフレッシュトークンが見つかりません"), [])
    else
      match refresh(refreshToken.value)
      case Threw(name) =>
        if name == NotAuthorized then Json(401, Message("リフレッシュトークンが無効です"), [])
        else Json(500, Message("トークンの更新に失敗しました"), [])
      case Returned(res) =>
        match IssuedAccessToken(res)
        case Some(t) => Json(200, Message("トークンの更新に成功しました"), [AccessCookie(t)])
        case None => Json(401, Message("トークンの更新に失敗しました"), [])
  }

  /** Without a refresh cookie the answer does not depend on Cognito: it is never called. */
  lemma NoCookieSkipsCognito(cookies: Cookies, f: string -> Outcome<InitiateAuthResponse>,
                             g: string -> Outcome<InitiateAuthResponse>)
    requires !Truthy(CookieValue(cookies, "refreshToken"))
    ensures Post(cookies, f) == Post(cookies, g)
  {
  }

  /** A refusal answers 401 and any other error 500. */
  lemma ErrorStatus(cookies: Cookies, refresh: string -> Outcome<InitiateAuthResponse>)
    requires Truthy(CookieValue(cookies, "refreshToken"))
    requires refresh(CookieValue(cookies, "refreshToken").value).Threw?
    ensures Post(cookies, refresh).status ==
            if refresh(CookieValue(cookies, "refreshToken").value).name == NotAuthorized then 401 else 500
  {
  }

  /**
   * A call that returns: an issued access token answers 200 and sets it as
   * the 15-minute httpOnly `accessToken` cookie; no token answers 401 and
   * sets nothing.
   */
  lemma ReturnedOutcomes(cookies: Cookies, refresh: string -> Outcome<InitiateAuthResponse>)
    requires Truthy(CookieValue(cookies, "refreshToken"))
    requires refresh(CookieValue(cookies, "refreshToken").value).Returned?
    ensures var r := Post(cookies, refresh);
            match IssuedAccessToken(refresh(CookieValue(cookies, "refreshToken").value).value)
            case Some(t) =>
              r.status == 200 && r.cookies == [SetCookie("accessToken", t, true, "lax", 900)]
            case None => r.status == 401 && r.cookies == []
  {
  }
}
