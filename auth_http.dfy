/** What the auth API routes read from a request and the responses they build. */
module AuthHttp {
  import opened Common

  /** The request's cookies: one value per name, as the request's cookie store keeps them. */
  type Cookies = map<string, string>

  /** `cookies.get(name)?.value` */
  function CookieValue(cookies: Cookies, name: string): Option<string> {
    if name in cookies then Some(cookies[name]) else None
  }

  /** A `Set-Cookie` with the attributes the routes use. */
  datatype SetCookie = SetCookie(name: string, value: string, httpOnly: bool, sameSite: string, maxAge: int)

  /** `accessToken` for 15 minutes, `refreshToken` for 7 days. */
  const AccessTokenMaxAge := 15 * 60
  const RefreshTokenMaxAge := 7 * 24 * 60 * 60

  function AccessCookie(token: string): SetCookie {
    SetCookie("accessToken", token, true, "lax", AccessTokenMaxAge)
  }

  /** The body of a JSON response. */
  datatype Body =
    | Message(text: string)
    | WithToken(accessToken: string, text: string)
    | UserInfo(username: Option<string>, attributes: map<string, string>)

  /** A route's result: a JSON response, or `undefined` when the handler returns nothing. */
  datatype Response =
    | Json(status: int, body: Body, cookies: seq<SetCookie>)
    | NoResponse

  /** The result of a Cognito call: its value, or the `name` of the error it threw. */
  datatype Outcome<+T> = Returned(value: T) | Threw(name: string)

  /** `AuthenticationResult`, with the fields the routes read; `None` when absent. */
  datatype AuthenticationResult = AuthenticationResult(accessToken: Option<string>, refreshToken: Option<string>)

  /** `InitiateAuth`'s response; `AuthenticationResult` is optional. */
  type InitiateAuthResponse = Option<AuthenticationResult>

  /** `response.AuthenticationResult?.AccessToken`, when it is a non-empty string. */
  function IssuedAccessToken(r: InitiateAuthResponse): (t: Option<string>)
    ensures t.Some? ==> t.value != "" && r.Some? && r.value.accessToken == t
    ensures t.None? ==> r.None? || !Truthy(r.value.accessToken)
  {
    if r.Some? && Truthy(r.value.accessToken) then r.value.accessToken else None
  }

  const NotAuthorized := "NotAuthorizedException"
}
