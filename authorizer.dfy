/** The API Gateway Lambda authoriser: a Bearer token from the headers, checked by the JWT verifier. */
module Authorizer {
  import opened Common

  /** What the verifier does with a token: the payload's claims as text, or an exception. */
  datatype Verification = Verified(claims: map<string, string>) | Rejected

  /** The authoriser's answer; `Allow` carries the request context. */
  datatype Decision = Deny | Allow(context: map<string, string>)

  const Bearer := "Bearer "

  /** `event.headers?.authorization || event.headers?.Authorization` */
  function AuthHeader(headers: Option<map<string, string>>): (h: Option<string>)
    ensures headers.None? ==> h.None?
    ensures headers.Some? && "authorization" in headers.value && headers.value["authorization"] != "" ==>
              h == Some(headers.value["authorization"])
    ensures headers.Some? && !("authorization" in headers.value && headers.value["authorization"] != "") ==>
              h == (if "Authorization" in headers.value then Some(headers.value["Authorization"]) else None)
  {
    match headers
    case None => None
    case Some(hs) =>
      if "authorization" in hs && hs["authorization"] != "" then Some(hs["authorization"])
      else if "Authorization" in hs then Some(hs["Authorization"])
      else None
  }

  /**
   * The context of a verified token: `userId` is `String(sub)`, `email` and
   * `name` default to `""`, and every claim of the payload is spread over
   * them.
   */
  function SuccessContext(claims: map<string, string>): (ctx: map<string, string>)
    ensures ctx.Keys == claims.Keys + {"userId", "email", "name"}
    ensures forall k :: k in claims ==> ctx[k] == claims[k]
    ensures "userId" !in claims ==> ctx["userId"] == (if "sub" in claims then claims["sub"] else "undefined")
    ensures "email" !in claims ==> ctx["email"] == ""
    ensures "name" !in claims ==> ctx["name"] == ""
  {
    var base := map[
      "userId" := if "sub" in claims then claims["sub"] else "undefined",
      "email" := if "email" in claims && claims["email"] != "" then claims["email"] else "",
      "name" := if "name" in claims && claims["name"] != "" then claims["name"] else ""];
    base + claims
  }

  /** The context given when verification throws. */
  const ErrorContext := map["userId" := "error-user", "email" := "error@example.com", "name" := "Error User"]

  /**
   * `handler(event)`: `verify` is the verifier's answer for each token. A
   * verification failure is caught and the request is still allowed.
   */
  function Handle(headers: Option<map<string, string>>, verify: string -> Verification): (d: Decision)
    ensures var h := AuthHeader(headers);
            d.Deny? <==> h.None? || !StartsWith(h.value, Bearer) || |h.value| == |Bearer|
    ensures d.Allow? ==>
              var token := AuthHeader(headers).value[|Bearer|..];
              match verify(token)
              case Verified(claims) => d.context == SuccessContext(claims)
              case Rejected => d.context == ErrorContext
  {
    var h := AuthHeader(headers);
    if h.None? || !StartsWith(h.value, Bearer) then Deny
    else
      var token := h.value[|Bearer|..];
      if token == "" then Deny
      else
        match verify(token)
        case Verified(claims) => Allow(SuccessContext(claims))
        case Rejected => Allow(ErrorContext)
  }

  /** Any `Bearer` header with a non-empty token is allowed, whether or not the token verifies. */
  lemma EveryBearerTokenIsAllowed(headers: Option<map<string, string>>, verify: string -> Verification)
    requires AuthHeader(headers).Some?
    requires var h := AuthHeader(headers).value; StartsWith(h, Bearer) && |h| > |Bearer|
    ensures Handle(headers, verify).Allow?
  {
  }

  /** A header of `Bearer ` alone is denied. */
  lemma EmptyTokenIsDenied(headers: Option<map<string, string>>, verify: string -> Verification)
    requires AuthHeader(headers) == Some(Bearer)
    ensures Handle(headers, verify) == Deny
  {
  }

  /** The scheme is case-sensitive: `bearer` is denied. */
  lemma LowerCaseSchemeIsDenied(headers: Option<map<string, string>>, verify: string -> Verification)
    requires AuthHeader(headers).Some? && |AuthHeader(headers).value| >= 7
    requires AuthHeader(headers).value[..7] == "bearer "
    ensures Handle(headers, verify) == Deny
  {
    assert AuthHeader(headers).value[0] != Bearer[0];
  }
}
