/**
 The JWT authentication middleware: where the token is taken from, and
 whether the request proceeds with the decoded claims or is answered with
 401. Signature checking is an input: `verify(token, secret)` is the
 decoded payload, or None where `jwt.verify` throws.
 */
module AuthMiddleware {
  import opened Js
  import opened Text
  import Constants

  /** The payload the server signs and later reads back as `req.user`. */
  datatype Claims = Claims(id: nat, username: string, email: string, isPremium: bool)

  /** `jwt.verify(token, secret)`: the decoded payload, or None for a bad or expired token. */
  type Verifier = (string, string) -> Option<Claims>

  /** The three places a token may come from. */
  datatype TokenRequest = TokenRequest(authorization: Option<string>, queryToken: Option<string>, bodyToken: Option<string>)

  datatype AuthOutcome =
    | Proceed(user: Claims)
    | Unauthenticated(error: string, redirect: string)

  const BearerPrefix := "Bearer "
  const LoginPath := "/login"
  const MissingTokenError := "Authentication required"
  const BadTokenError := "Invalid or expired token"

  /** `process.env.JWT_SECRET || default`. */
  function JwtSecret(env: Option<string>): (r: string)
    ensures Truthy(env) ==> r == env.value
    ensures !Truthy(env) ==> r == "your-jwt-secret-change-in-production"
  {
    Or(env, Constants.DefaultJwtSecret)
  }

  /** The middleware and the configuration read the same secret. */
  lemma JwtSecretAgrees(env: Constants.Env)
    ensures JwtSecret(env.jwtSecret) == Constants.GetEnvConfig(env).jwtSecret
  {
  }

  /** `authHeader && authHeader.startsWith("Bearer ")`. */
  predicate HasBearer(header: Option<string>) {
    header.Some? && BearerPrefix <= header.value
  }

  /**
   `authHeader.split(" ")[1]`: the text after "Bearer " up to the next
   space. A second space straight after the prefix gives the empty token.
   */
  function BearerToken(header: string): (r: string)
    requires BearerPrefix <= header
    ensures ' ' !in r
    ensures r <= header[|BearerPrefix|..]
    ensures |BearerPrefix| + |r| < |header| ==> header[|BearerPrefix| + |r|] == ' '
  {
    var rest := header[|BearerPrefix|..];
    assert header == "Bearer" + [' '] + rest;
    SplitAround("Bearer", rest, ' ');
    SplitWithoutSeparator("Bearer", ' ');
    FirstPiece(rest, ' ');
    Split(header, ' ')[1]
  }

  /** A token without spaces sent as "Bearer <token>" is read back unchanged. */
  lemma BearerRoundTrip(token: string)
    requires ' ' !in token
    ensures BearerToken(BearerPrefix + token) == token
  {
    var header := BearerPrefix + token;
    assert header[|BearerPrefix|..] == token;
    SplitWithoutSeparator(token, ' ');
    FirstPiece(token, ' ');
  }

  /**
   The token the middleware reads: a Bearer header wins, else a non-empty
   query token, else a non-empty body token. The Bearer token may be empty.
   */
  function SelectToken(req: TokenRequest): (r: Option<string>)
    ensures HasBearer(req.authorization) ==> r == Some(BearerToken(req.authorization.value))
    ensures !HasBearer(req.authorization) ==> (r.None? <==> !Truthy(req.queryToken) && !Truthy(req.bodyToken))
    ensures !HasBearer(req.authorization) && r.Some? ==>
      r.value != "" && (Truthy(req.queryToken) ==> r == req.queryToken) && (!Truthy(req.queryToken) ==> r == req.bodyToken)
  {
    if HasBearer(req.authorization) then Some(BearerToken(req.authorization.value))
    else if Truthy(req.queryToken) then req.queryToken
    else if Truthy(req.bodyToken) then req.bodyToken
    else None
  }

  /**
   `authenticateJWT`: no token, or an empty one, is "Authentication
   required"; a token `verify` rejects is "Invalid or expired token"; both
   are 401 with a redirect to the login page. Otherwise the request
   proceeds with the decoded claims.
   */
  function Authenticate(req: TokenRequest, secret: string, verify: Verifier): (r: AuthOutcome)
    ensures !Truthy(SelectToken(req)) ==> r == Unauthenticated("Authentication required", "/login")
    ensures Truthy(SelectToken(req)) ==>
      var decoded := verify(SelectToken(req).value, secret);
      && (decoded.Some? ==> r == Proceed(decoded.value))
      && (decoded.None? ==> r == Unauthenticated("Invalid or expired token", "/login"))
    ensures r.Proceed? ==> exists token :: token != "" && verify(token, secret) == Some(r.user)
  {
    var token := SelectToken(req);
    if !Truthy(token) then Unauthenticated(MissingTokenError, LoginPath)
    else
      match verify(token.value, secret)
      case Some(claims) => Proceed(claims)
      case None => Unauthenticated(BadTokenError, LoginPath)
  }

  /** With a Bearer header, the query and body tokens are never looked at. */
  lemma BearerShadowsOtherSources(req: TokenRequest, query: Option<string>, body: Option<string>, secret: string, verify: Verifier)
    requires HasBearer(req.authorization)
    ensures Authenticate(req.(queryToken := query, bodyToken := body), secret, verify) == Authenticate(req, secret, verify)
  {
  }

  /** Without a Bearer header, a non-empty query token shadows the body token. */
  lemma QueryShadowsBody(req: TokenRequest, body: Option<string>, secret: string, verify: Verifier)
    requires !HasBearer(req.authorization) && Truthy(req.queryToken)
    ensures Authenticate(req.(bodyToken := body), secret, verify) == Authenticate(req, secret, verify)
  {
  }

  /**
   A Bearer header whose token is empty ("Bearer " alone, or a second space
   after the prefix) is rejected even when the query or body holds a
   valid token: the header does not fall back.
   */
  lemma EmptyBearerDoesNotFallBack(rest: string, query: Option<string>, body: Option<string>, secret: string, verify: Verifier)
    requires rest == [] || rest[0] == ' '
    ensures Authenticate(TokenRequest(Some(BearerPrefix + rest), query, body), secret, verify)
      == Unauthenticated("Authentication required", "/login")
  {
    var header := BearerPrefix + rest;
    assert header[|BearerPrefix|..] == rest;
    assert BearerToken(header) == [];
  }

  /** A token sent as "Bearer <token>" authenticates exactly when `verify` accepts it. */
  lemma BearerHeaderAuthenticates(token: string, query: Option<string>, body: Option<string>, secret: string, verify: Verifier)
    requires token != "" && ' ' !in token
    ensures var r := Authenticate(TokenRequest(Some(BearerPrefix + token), query, body), secret, verify);
      (r.Proceed? <==> verify(token, secret).Some?) && (r.Proceed? ==> r.user == verify(token, secret).value)
  {
    BearerRoundTrip(token);
  }
}
