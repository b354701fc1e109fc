/** `GET /api/auth/token`: the access token from its cookie, or a fresh one from the refresh token. */
module TokenRoute {
  import opened Common
  import opened AuthHttp
  import Jwt

  /**
   * The route at clock reading `now` (milliseconds). `decode` reads a token's
   * payload segment and `refresh` is Cognito's `REFRESH_TOKEN_AUTH` call.
   */
  function Get(cookies: Cookies, now: int, decode: string -> Jwt.Payload,
               refresh: string -> Outcome<InitiateAuthResponse>): (r: Response)
    ensures r.Json? && r.status in {200, 401, 500}
    ensures r.status == 200 <==> r.body.WithToken?
    ensures var access := CookieValue(cookies, "accessToken");
            Truthy(access) && !Jwt.IsExpired(access.value, now, decode) ==>
              r.status == 200 && r.body.accessToken == access.value && r.cookies == []
    ensures var access := CookieValue(cookies, "accessToken");
            !(Truthy(access) && !Jwt.IsExpired(access.value, now, decode)) && !Truthy(CookieValue(cookies, "refreshToken")) ==>
              r.status == 401
    ensures r.cookies != [] ==> r.status == 200 && r.cookies == [AccessCookie(r.body.accessToken)]
  {
    var access := CookieValue(cookies, "accessToken");
    if Truthy(access) && !Jwt.IsExpired(access.value, now, decode) then
      Json(200, WithToken(access.value, "有効なアクセストークンを取得しました"), [])
    else
      var refreshToken := CookieValue(cookies, "refreshToken");
      if !Truthy(refreshToken) then
        Json(401, Message("認証が必要です"), [])
      else
        match refresh(refreshToken.value)
        case Threw(name) =>
          if name == NotAuthorized then Json(401, Message("認証が期限切れです。再度ログインしてください。"), [])
          else Json(500, Message("トークンの取得に失敗しました"), [])
        case Returned(res) =>
          match IssuedAccessToken(res)
          case Some(t) => Json(200, WithToken(t, "アクセストークンを更新しました"), [AccessCookie(t)])
          case None => Json(401, Message("トークンの更新に失敗しました"), [])
  }

  /** With a valid access cookie the answer does not depend on Cognito: it is never called. */
  lemma ValidAccessSkipsCognito(cookies: Cookies, now: int, decode: string -> Jwt.Payload,
                                f: string -> Outcome<InitiateAuthResponse>, g: string -> Outcome<InitiateAuthResponse>)
    requires Truthy(CookieValue(cookies, "accessToken"))
    requires !Jwt.IsExpired(CookieValue(cookies, "accessToken").value, now, decode)
    ensures Get(cookies, now, decode, f) == Get(cookies, now, decode, g)
  {
  }

  /**
   * After the access token is found invalid: a refresh that issues a token
   * answers 200 with it and sets it as the `accessToken` cookie; a refresh
   * without one answers 401; a refusal answers 401 and any other error 500.
   */
  lemma RefreshOutcomes(cookies: Cookies, now: int, decode: string -> Jwt.Payload,
                        refresh: string -> Outcome<InitiateAuthResponse>)
    requires var access := CookieValue(cookies, "accessToken");
             !(Truthy(access) && !Jwt.IsExpired(access.value, now, decode))
    requires Truthy(CookieValue(cookies, "refreshToken"))
    ensures var r := Get(cookies, now, decode, refresh);
            match refresh(CookieValue(cookies, "refreshToken").value)
            case Threw(name) => r.status == (if name == NotAuthorized then 401 else 500) && r.cookies == []
            case Returned(res) =>
              if IssuedAccessToken(res).Some? then
                r.status == 200 && r.body.accessToken == IssuedAccessToken(res).value
                && r.cookies == [SetCookie("accessToken", r.body.accessToken, true, "lax", 900)]
              else r.status == 401
  {
  }
}
