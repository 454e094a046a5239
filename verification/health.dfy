/**
 The debug-session endpoint: it reports the decoded claims of a token from
 the Authorization header or the query string, and never rejects the
 request. The body token the middleware also accepts is not consulted.
 */
module Health {
  import opened Js
  import opened AuthMiddleware

  /** `{ user: decoded }`, `{ user: null }` or `{ user: null, error: "invalid_token" }`. */
  datatype SessionView = SessionView(user: Option<Claims>, error: Option<string>)

  /** The token the endpoint reads: a Bearer header wins, else a non-empty query token. */
  function SessionToken(req: TokenRequest): (r: Option<string>)
    ensures r == SelectToken(req.(bodyToken := None))
  {
    if HasBearer(req.authorization) then Some(BearerToken(req.authorization.value))
    else if Truthy(req.queryToken) then req.queryToken
    else None
  }

  /**
   `GET /debug/session`: no usable token gives a null user; a token
   `verify` rejects gives a null user with the error "invalid_token";
   otherwise the decoded claims.
   */
  function DebugSession(req: TokenRequest, secret: string, verify: Verifier): (r: SessionView)
    ensures !Truthy(SessionToken(req)) ==> r == SessionView(None, None)
    ensures Truthy(SessionToken(req)) ==> r.user == verify(SessionToken(req).value, secret)
    ensures r.error.Some? <==> Truthy(SessionToken(req)) && verify(SessionToken(req).value, secret).None?
    ensures r.error.Some? ==> r.error.value == "invalid_token"
  {
    var token := SessionToken(req);
    if !Truthy(token) then SessionView(None, None)
    else
      match verify(token.value, secret)
      case Some(claims) => SessionView(Some(claims), None)
      case None => SessionView(None, Some("invalid_token"))
  }

  /** The body token never changes what the endpoint reports. */
  lemma DebugSessionIgnoresBody(req: TokenRequest, body: Option<string>, secret: string, verify: Verifier)
    ensures DebugSession(req.(bodyToken := body), secret, verify) == DebugSession(req, secret, verify)
  {
  }

  /**
   For a request without a body token, the endpoint shows a user exactly
   when the middleware would let the request through, and it is the same
   user.
   */
  lemma DebugSessionAgreesWithMiddleware(req: TokenRequest, secret: string, verify: Verifier)
    requires req.bodyToken.None?
    ensures var view := DebugSession(req, secret, verify);
      var auth := Authenticate(req, secret, verify);
      (view.user.Some? <==> auth.Proceed?) && (auth.Proceed? ==> view.user == Some(auth.user))
  {
    assert req.(bodyToken := None) == req;
  }

  /**
   When only the body carries a token, the middleware may authenticate the
   request while the endpoint reports no session.
   */
  lemma BodyTokenOnlyAuthenticates(token: string, secret: string, verify: Verifier)
    requires token != "" && verify(token, secret).Some?
    ensures var req := TokenRequest(None, None, Some(token));
      Authenticate(req, secret, verify).Proceed? && DebugSession(req, secret, verify).user.None?
  {
  }
}
