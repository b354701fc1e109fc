/** `POST /api/auth/signin`: password sign-in against Cognito. */
module SigninRoute {
  import opened Common
  import opened AuthHttp

  /** The parsed request body `{ email, password }`; `None` when `request.json()` or the destructuring throws. */
  datatype Credentials = Credentials(email: Option<string>, password: Option<string>)

  const UserNotConfirmed := "UserNotConfirmedException"

  function RefreshCookie(token: string): SetCookie {
    SetCookie("refreshToken", token, true, "lax", RefreshTokenMaxAge)
  }

  /**
   * The route; `initiate` is Cognito's `USER_PASSWORD_AUTH` call. A body
   * that does not parse throws a `SyntaxError` or `TypeError`, which the
   * handler's `catch` answers with 500. For `NotAuthorizedException` the
   * handler's `return` stands alone on its line, so it returns `undefined`
   * and the 401 response below it is never built.
   */
  function Post(body: Option<Credentials>, initiate: (string, string) -> Outcome<InitiateAuthResponse>): (r: Response)
    ensures body.None? ==> r == Json(500, Message("サインインに失敗しました"), [])
    ensures body.Some? && !(Truthy(body.value.email) && Truthy(body.value.password)) ==> r.Json? && r.status == 400
    ensures r.Json? ==> r.status in {200, 400, 401, 500}
    ensures r.Json? && r.status == 200 ==> r.body.WithToken? && r.body.accessToken != ""
    ensures r.Json? ==> forall c :: c in r.cookies ==> c.name == "refreshToken" && c.maxAge == 604800 && c.httpOnly
  {
    match body
    case None => Json(500, Message("サインインに失敗しました"), [])
    case Some(creds) =>
      if !Truthy(creds.email) || !Truthy(creds.password) then
        Json(400, Message("メールアドレスとパスワードが必要です"), [])
      else
        match initiate(creds.email.value, creds.password.value)
        case Threw(name) =>
          if name == NotAuthorized then NoResponse
          else if name == UserNotConfirmed then Json(400, Message("アカウントが確認されていません"), [])
          else Json(500, Message("サインインに失敗しました"), [])
        case Returned(res) =>
          match IssuedAccessToken(res)
          case None => Json(401, Message("認証に失敗しました"), [])
          case Some(t) =>
            var refresh := res.value.refreshToken;
            Json(200, WithToken(t, "サインインに成功しました"),
                 if Truthy(refresh) then [RefreshCookie(refresh.value)] else [])
  }

  /** Missing credentials are answered without calling Cognito. */
  lemma MissingCredentialsSkipCognito(creds: Credentials, f: (string, string) -> Outcome<InitiateAuthResponse>,
                                      g: (string, string) -> Outcome<InitiateAuthResponse>)
    requires !Truthy(creds.email) || !Truthy(creds.password)
    ensures Post(Some(creds), f) == Post(Some(creds), g)
  {
  }

  /** Wrong credentials make the handler return nothing at all, never a 401. */
  lemma WrongPasswordReturnsNothing(creds: Credentials, initiate: (string, string) -> Outcome<InitiateAuthResponse>)
    requires Truthy(creds.email) && Truthy(creds.password)
    requires initiate(creds.email.value, creds.password.value) == Threw(NotAuthorized)
    ensures Post(Some(creds), initiate) == NoResponse
  {
  }

  /** No call ever yields a 401 for a refused sign-in: the only 401 is the one without an access token. */
  lemma UnauthorizedOnlyWithoutToken(creds: Credentials, initiate: (string, string) -> Outcome<InitiateAuthResponse>)
    requires Post(Some(creds), initiate).Json? && Post(Some(creds), initiate).status == 401
    ensures Truthy(creds.email) && Truthy(creds.password)
    ensures var o := initiate(creds.email.value, creds.password.value);
            o.Returned? && IssuedAccessToken(o.value).None?
  {
  }

  /** A successful sign-in sets the refresh cookie exactly when Cognito issued a refresh token. */
  lemma RefreshCookieIffIssued(creds: Credentials, initiate: (string, string) -> Outcome<InitiateAuthResponse>)
    requires Truthy(creds.email) && Truthy(creds.password)
    requires var o := initiate(creds.email.value, creds.password.value);
             o.Returned? && IssuedAccessToken(o.value).Some?
    ensures var o := initiate(creds.email.value, creds.password.value);
            var r := Post(Some(creds), initiate);
            r.Json? && r.status == 200 && r.body.accessToken == IssuedAccessToken(o.value).value
            && (r.cookies != [] <==> Truthy(o.value.value.refreshToken))
            && r.cookies == (if Truthy(o.value.value.refreshToken) then [RefreshCookie(o.value.value.refreshToken.value)] else [])
  {
  }

  /**
   * Every answer to complete credentials that is not a success: a refusal
   * returns nothing, an unconfirmed account is 400, any other error 500,
   * and a call that issues no access token 401.
   */
  lemma FailureStatus(creds: Credentials, initiate: (string, string) -> Outcome<InitiateAuthResponse>)
    requires Truthy(creds.email) && Truthy(creds.password)
    ensures var r := Post(Some(creds), initiate);
            match initiate(creds.email.value, creds.password.value)
            case Threw(name) =>
              if name == NotAuthorized then r == NoResponse
              else r.Json? && r.status == (if name == UserNotConfirmed then 400 else 500) && r.cookies == []
            case Returned(res) =>
              IssuedAccessToken(res).None? ==> r.Json? && r.status == 401 && r.cookies == []
  {
  }
}
