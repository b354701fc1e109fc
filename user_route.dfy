/** `GET /api/auth/user`: the signed-in user's name and attributes from Cognito. */
module UserRoute {
  import opened Common
  import opened AuthHttp

  /** One entry of `UserAttributes`: its `Name` and `Value`, either possibly absent. */
  type Attribute = (Option<string>, Option<string>)

  /** `GetUser`'s response, with the fields the route returns. */
  datatype UserResponse = UserResponse(username: Option<string>, attributes: Option<seq<Attribute>>)

  /** An entry the loop keeps: non-empty name and non-empty value. */
  predicate Kept(a: Attribute) {
    Truthy(a.0) && Truthy(a.1)
  }

  /** The position of the last kept entry named `name`. */
  function LastKept(attrs: seq<Attribute>, name: string): (r: Option<nat>)
    ensures r.Some? ==> r.value < |attrs| && Kept(attrs[r.value]) && attrs[r.value].0 == Some(name)
    ensures r.Some? ==> forall j :: r.value < j < |attrs| ==> !(Kept(attrs[j]) && attrs[j].0 == Some(name))
    ensures r.None? ==> forall j :: 0 <= j < |attrs| ==> !(Kept(attrs[j]) && attrs[j].0 == Some(name))
  {
    if attrs == [] then None
    else if Kept(attrs[|attrs| - 1]) && attrs[|attrs| - 1].0 == Some(name) then Some(|attrs| - 1)
    else LastKept(attrs[..|attrs| - 1], name)
  }

  /**
   * The attribute dictionary: the kept entries, a name seen again taking
   * the later value.
   */
  function Attributes(attrs: seq<Attribute>): (m: map<string, string>)
    ensures forall n :: n in m <==> LastKept(attrs, n).Some?
    ensures forall n :: n in m ==> m[n] == attrs[LastKept(attrs, n).value].1.value
  {
    if attrs == [] then map[]
    else
      var init := attrs[..|attrs| - 1];
      var a := attrs[|attrs| - 1];
      var m := Attributes(init);
      if Kept(a) then m[a.0.value := a.1.value] else m
  }

  /** The `forEach` that fills `userAttributes`. */
  method CollectAttributes(attrs: seq<Attribute>) returns (userAttributes: map<string, string>)
    ensures userAttributes == Attributes(attrs)
  {
    userAttributes := map[];
    for i := 0 to |attrs|
      invariant userAttributes == Attributes(attrs[..i])
    {
      assert attrs[..i + 1][..i] == attrs[..i];
      var a := attrs[i];
      if Truthy(a.0) && Truthy(a.1) {
        userAttributes := userAttributes[a.0.value := a.1.value];
      }
    }
    assert attrs[..|attrs|] == attrs;
  }

  /**
   * The route. Without an access cookie it refreshes with the refresh
   * cookie first (`refresh`, Cognito's `REFRESH_TOKEN_AUTH`); any failure
   * there is 401. Then `getUser` is Cognito's `GetUser` with that token.
   */
  function Get(cookies: Cookies, refresh: string -> Outcome<InitiateAuthResponse>,
               getUser: string -> Outcome<UserResponse>): (r: Response)
    ensures r.Json? && r.status in {200, 401, 500} && r.cookies == []
    ensures r.status == 200 <==> r.body.UserInfo?
    ensures !Truthy(CookieValue(cookies, "accessToken")) && !Truthy(CookieValue(cookies, "refreshToken")) ==>
              r.status == 401
  {
    var access := CookieValue(cookies, "accessToken");
    var token: Result<string, Response> :=
      if Truthy(access) then Ok(access.value)
      else
        var refreshToken := CookieValue(cookies, "refreshToken");
        if !Truthy(refreshToken) then Err(Json(401, Message("認証が必要です"), []))
        else
          match refresh(refreshToken.value)
          case Threw(_) => Err(Json(401, Message("認証が期限切れです"), []))
          case Returned(res) =>
            match IssuedAccessToken(res)
            case None => Err(Json(401, Message("認証が期限切れです"), []))
            case Some(t) => Ok(t);
    match token
    case Err(response) => response
    case Ok(t) =>
      match getUser(t)
      case Threw(name) =>
        if name == NotAuthorized then Json(401, Message("認証が無効です"), [])
        else Json(500, Message("ユーザー情報の取得に失敗しました"), [])
      case Returned(user) => Json(200, UserInfo(user.username, Attributes(user.attributes.GetOr([]))), [])
  }

  /** A non-empty access cookie is used as it is: the refresh call is never made. */
  lemma AccessCookieSkipsRefresh(cookies: Cookies, f: string -> Outcome<InitiateAuthResponse>,
                                 g: string -> Outcome<InitiateAuthResponse>, getUser: string -> Outcome<UserResponse>)
    requires Truthy(CookieValue(cookies, "accessToken"))
    ensures Get(cookies, f, getUser) == Get(cookies, g, getUser)
  {
  }

  /** Every failure of the refresh, thrown or not, is 401; `GetUser` is not called. */
  lemma RefreshFailureIsUnauthorized(cookies: Cookies, refresh: string -> Outcome<InitiateAuthResponse>,
                                     getUser: string -> Outcome<UserResponse>)
    requires !Truthy(CookieValue(cookies, "accessToken")) && Truthy(CookieValue(cookies, "refreshToken"))
    requires var o := refresh(CookieValue(cookies, "refreshToken").value);
             o.Threw? || IssuedAccessToken(o.value).None?
    ensures Get(cookies, refresh, getUser).status == 401
  {
  }

  /**
   * `t` is the token the route hands to `GetUser`: the non-empty access
   * cookie, or else the access token a refresh with the refresh cookie issued.
   */
  predicate PassedToken(cookies: Cookies, refresh: string -> Outcome<InitiateAuthResponse>, t: string) {
    var access := CookieValue(cookies, "accessToken");
    var refreshToken := CookieValue(cookies, "refreshToken");
    if Truthy(access) then t == access.value
    else
      && Truthy(refreshToken)
      && refresh(refreshToken.value).Returned?
      && IssuedAccessToken(refresh(refreshToken.value).value) == Some(t)
  }

  /**
   * With the token obtained either way, `GetUser`'s answer decides the
   * response: its username and attribute dictionary as a 200, a refusal as
   * 401, anything else as 500.
   */
  lemma GetUserOutcomes(cookies: Cookies, refresh: string -> Outcome<InitiateAuthResponse>,
                        getUser: string -> Outcome<UserResponse>, t: string)
    requires PassedToken(cookies, refresh, t)
    ensures var r := Get(cookies, refresh, getUser);
            match getUser(t)
            case Returned(u) => r == Json(200, UserInfo(u.username, Attributes(u.attributes.GetOr([]))), [])
            case Threw(name) => r.status == (if name == NotAuthorized then 401 else 500) && r.body.Message?
  {
  }

  /** `GetUser` errors: a refusal is 401, anything else 500, whichever way the token was obtained. */
  lemma GetUserErrorStatus(cookies: Cookies, refresh: string -> Outcome<InitiateAuthResponse>,
                           getUser: string -> Outcome<UserResponse>, t: string)
    requires PassedToken(cookies, refresh, t)
    requires getUser(t).Threw?
    ensures Get(cookies, refresh, getUser).status == if getUser(t).name == NotAuthorized then 401 else 500
  {
    GetUserOutcomes(cookies, refresh, getUser, t);
  }
}
