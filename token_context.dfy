/**
 * The client's token store: the access token in React state, mirrored in
 * `localStorage` under `authToken`, checked for expiry when it is set and
 * renewed through `POST /api/auth/refresh`.
 */
module TokenContext {
  import opened Common
  import opened AuthHttp
  import Jwt
  import RefreshRoute

  /**
   * What `refreshToken` gets from `fetch`: a network failure, or a response
   * with its `ok` flag and its parsed body (`None` when `response.json()`
   * throws), of which only `accessToken` is read.
   */
  datatype FetchResult = NetworkFailure | Responded(ok: bool, body: Option<Option<string>>)

  /** The client's view of a route's response: `ok` is a 2xx status. */
  function Seen(r: Response): (f: FetchResult)
    ensures r.Json? ==> f.Responded? && (f.ok <==> 200 <= r.status < 300)
    ensures r.Json? ==> f.body == Some(if r.body.WithToken? then Some(r.body.accessToken) else None)
  {
    match r
    case Json(status, body, _) =>
      Responded(200 <= status < 300, Some(if body.WithToken? then Some(body.accessToken) else None))
    case NoResponse => Responded(false, None)
  }

  /** A successful answer of the refresh route carries no `accessToken` in its body. */
  lemma RefreshRouteBodyHasNoToken(cookies: Cookies, refresh: string -> Outcome<InitiateAuthResponse>)
    requires RefreshRoute.Post(cookies, refresh).status == 200
    ensures Seen(RefreshRoute.Post(cookies, refresh)) == Responded(true, Some(None))
  {
  }

  class TokenStore {
    /** The token in state. */
    var token: Option<string>
    /** `localStorage["authToken"]`. */
    var stored: Option<string>

    /** A non-empty token in state is the one in storage. */
    ghost predicate Valid()
      reads this
    {
      Truthy(token) ==> stored == token
    }

    /** The provider before its effect runs: no token in state, storage as the browser left it. */
    constructor(saved: Option<string>)
      ensures Valid() && token == None && stored == saved
    {
      token := None;
      stored := saved;
    }

    /**
     * The mount effect: a saved token that has not expired is taken into
     * state, an expired one is removed from storage. It runs once, while the
     * state still holds no token.
     */
    method Mount(now: int, decode: string -> Jwt.Payload)
      requires token == None
      modifies this
      ensures Valid()
      ensures Truthy(old(stored)) && !Jwt.IsExpired(old(stored).value, now, decode) ==>
                token == old(stored) && stored == old(stored)
      ensures Truthy(old(stored)) && Jwt.IsExpired(old(stored).value, now, decode) ==>
                token == None && stored == None
      ensures !Truthy(old(stored)) ==> token == None && stored == old(stored)
    {
      var saved := stored;
      if Truthy(saved) && !Jwt.IsExpired(saved.value, now, decode) {
        token := saved;
      } else if Truthy(saved) {
        stored := None;
      }
    }

    /** `clearToken` */
    method ClearToken()
      modifies this
      ensures Valid() && token == None && stored == None
    {
      token := None;
      stored := None;
    }

    /**
     * `setToken`: an expired token clears the store; any other value becomes
     * the state, and is saved when non-empty and removed otherwise.
     */
    method SetToken(newToken: Option<string>, now: int, decode: string -> Jwt.Payload)
      modifies this
      ensures Valid()
      ensures Truthy(newToken) && Jwt.IsExpired(newToken.value, now, decode) ==> token == None && stored == None
      ensures !(Truthy(newToken) && Jwt.IsExpired(newToken.value, now, decode)) ==>
                token == newToken && stored == (if Truthy(newToken) then newToken else None)
    {
      if Truthy(newToken) && Jwt.IsExpired(newToken.value, now, decode) {
        ClearToken();
        return;
      }
      token := newToken;
      if Truthy(newToken) {
        stored := newToken;
      } else {
        stored := None;
      }
    }

    /**
     * `refreshToken`: an ok response sets the token from its body's
     * `accessToken` and reports success; anything else clears the store and
     * reports failure.
     */
    method RefreshToken(response: FetchResult, now: int, decode: string -> Jwt.Payload) returns (ok: bool)
      modifies this
      ensures Valid()
      ensures ok <==> response.Responded? && response.ok && response.body.Some?
      ensures !ok ==> token == None && stored == None
      ensures ok ==> var t := response.body.value;
                     if Truthy(t) && !Jwt.IsExpired(t.value, now, decode) then token == t && stored == t
                     else token == (if Truthy(t) then None else t) && stored == None
    {
      if response.NetworkFailure? || !response.ok || response.body.None? {
        ClearToken();
        return false;
      }
      SetToken(response.body.value, now, decode);
      return true;
    }
  }

  /**
   * Renewing against the refresh route: when the route succeeds, the client
   * reports success but holds no token afterwards, because the new token
   * travels only in the cookie.
   */
  method RefreshAgainstRoute(store: TokenStore, cookies: Cookies, refresh: string -> Outcome<InitiateAuthResponse>,
                             now: int, decode: string -> Jwt.Payload)
    returns (ok: bool)
    requires RefreshRoute.Post(cookies, refresh).status == 200
    modifies store
    ensures ok && store.token == None && store.stored == None
  {
    RefreshRouteBodyHasNoToken(cookies, refresh);
    ok := store.RefreshToken(Seen(RefreshRoute.Post(cookies, refresh)), now, decode);
  }
}
