/**
 The authentication routes: registration, password login, the OAuth token
 exchange, the status probe behind the JWT middleware, and the redirect
 the Google callback issues. Password hashing, password comparison, token
 signing and token verification are inputs.
 */
module AuthRoutes {
  import opened Js
  import opened Text
  import opened Lists
  import opened Store
  import opened AuthMiddleware
  import Constants
  import Uri

  /** `jwt.sign(payload, secret, { expiresIn: "7d" })`. */
  type Signer = (Claims, string) -> string

  /** `bcrypt.hash(password, 10)`. */
  type Hasher = string -> string

  /** `bcrypt.compare(password, hash)`. */
  type Comparer = (string, string) -> bool

  /** The user fields every response exposes: `{ id, username, email, is_premium }`. */
  datatype PublicUser = PublicUser(id: nat, username: string, email: string, isPremium: bool)

  datatype AuthBody =
    | AuthFailed(error: string)
    | AuthSucceeded(token: string, user: PublicUser)
    | StatusReport(authenticated: bool, statusUser: Option<PublicUser>)
    | Unauthorized(error: string, redirect: string)

  datatype AuthResponse = AuthResponse(status: nat, body: AuthBody)

  function Public(u: User): PublicUser {
    PublicUser(u.id, u.username, u.email, u.isPremium)
  }

  /** The token payload built from a user row. */
  function ClaimsOf(u: User): Claims {
    Claims(u.id, u.username, u.email, u.isPremium)
  }

  function Fail(status: nat, error: string): AuthResponse {
    AuthResponse(status, AuthFailed(error))
  }

  // ---------------------------------------------------------------------
  // POST /register
  // ---------------------------------------------------------------------

  datatype RegisterRequest = RegisterRequest(username: Option<string>, email: Option<string>, password: Option<string>)

  /**
   Registration: every field must be non-empty; the username is checked
   before the email; a new user gets the hashed password and no premium,
   and the response carries a token for it.
   */
  function Register(db: Db, req: RegisterRequest, hash: Hasher, sign: Signer, secret: string, now: nat): (r: (Db, AuthResponse))
    ensures !Truthy(req.username) || !Truthy(req.email) || !Truthy(req.password) ==>
      r == (db, AuthResponse(400, AuthFailed("All fields are required")))
    ensures Truthy(req.username) && Truthy(req.email) && Truthy(req.password) ==>
      && (FindUserByUsername(db, req.username.value).Some? ==>
            r == (db, AuthResponse(400, AuthFailed("Username already exists"))))
      && (FindUserByUsername(db, req.username.value).None? && FindUserByEmail(db, req.email.value).Some? ==>
            r == (db, AuthResponse(400, AuthFailed("Email already exists"))))
    ensures r.1.status == 200 <==>
      && Truthy(req.username) && Truthy(req.email) && Truthy(req.password)
      && FindUserByUsername(db, req.username.value).None? && FindUserByEmail(db, req.email.value).None?
    ensures r.1.status == 200 ==>
      var u := User(|db.users| + 1, req.username.value, req.email.value, hash(req.password.value), false, now);
      && r.0.users == db.users + [u]
      && r.0.chats == db.chats && r.0.messages == db.messages && r.0.daily == db.daily
      && r.1.body == AuthSucceeded(sign(ClaimsOf(u), secret), PublicUser(u.id, u.username, u.email, false))
    ensures r.1.status != 200 ==> r.0 == db
    ensures Wf(db) ==> Wf(r.0)
  {
    if !Truthy(req.username) || !Truthy(req.email) || !Truthy(req.password) then
      (db, Fail(400, "All fields are required"))
    else if FindUserByUsername(db, req.username.value).Some? then
      (db, Fail(400, "Username already exists"))
    else if FindUserByEmail(db, req.email.value).Some? then
      (db, Fail(400, "Email already exists"))
    else
      var (db1, u) := CreateUser(db, req.username.value, req.email.value, hash(req.password.value), false, now);
      (db1, AuthResponse(200, AuthSucceeded(sign(ClaimsOf(u), secret), Public(u))))
  }

  // ---------------------------------------------------------------------
  // POST /login
  // ---------------------------------------------------------------------

  /**
   Password login. An unknown username, or a password the hash does not
   match, is "Invalid credentials". A known username with no password at
   all makes `bcrypt.compare` throw, which the handler reports as 500.
   */
  function Login(db: Db, username: Option<string>, password: Option<string>, compare: Comparer, sign: Signer, secret: string, now: nat)
    : (r: (Db, AuthResponse))
    ensures var user := if username.Some? then FindUserByUsername(db, username.value) else None;
      && (user.None? ==> r == (db, AuthResponse(401, AuthFailed("Invalid credentials"))))
      && (user.Some? && password.None? ==> r == (db, AuthResponse(500, AuthFailed("Internal server error"))))
      && (user.Some? && password.Some? && !compare(password.value, user.value.passwordHash) ==>
            r == (db, AuthResponse(401, AuthFailed("Invalid credentials"))))
      && (user.Some? && password.Some? && compare(password.value, user.value.passwordHash) ==>
            && r.1 == AuthResponse(200, AuthSucceeded(sign(ClaimsOf(user.value), secret), Public(user.value)))
            && r.0 == UpdateLastLogin(db, user.value.id, now))
    ensures r.1.status == 200 ==> r.0.chats == db.chats && r.0.messages == db.messages && r.0.daily == db.daily
    ensures Wf(db) ==> Wf(r.0)
  {
    var user := if username.Some? then FindUserByUsername(db, username.value) else None;
    if user.None? then (db, Fail(401, "Invalid credentials"))
    else if password.None? then (db, Fail(500, "Internal server error"))
    else if !compare(password.value, user.value.passwordHash) then (db, Fail(401, "Invalid credentials"))
    else
      var token := sign(ClaimsOf(user.value), secret);
      (UpdateLastLogin(db, user.value.id, now), AuthResponse(200, AuthSucceeded(token, Public(user.value))))
  }

  /**
   A successful login touches the last-login time of the user who logged
   in, and no other row.
   */
  lemma LoginTouchesOnlyThatUser(db: Db, username: string, password: string, compare: Comparer, sign: Signer, secret: string, now: nat)
    requires Wf(db)
    requires Login(db, Some(username), Some(password), compare, sign, secret, now).1.status == 200
    ensures var r := Login(db, Some(username), Some(password), compare, sign, secret, now).0;
      var u := FindUserByUsername(db, username).value;
      && |r.users| == |db.users|
      && r.users[u.id - 1] == u.(updatedAt := now)
      && forall i :: 0 <= i < |db.users| && i != u.id - 1 ==> r.users[i] == db.users[i]
  {
    var u := FindUserByUsername(db, username).value;
    var i :| 0 <= i < |db.users| && db.users[i] == u;
    assert u.id == i + 1;
  }

  /** A new account is found by its username straight away. */
  lemma RegisteredUserIsFound(db: Db, req: RegisterRequest, hash: Hasher, sign: Signer, secret: string, now: nat)
    requires Register(db, req, hash, sign, secret, now).1.status == 200
    ensures var db' := Register(db, req, hash, sign, secret, now).0;
      FindUserByUsername(db', req.username.value) == Some(db'.users[|db.users|])
  {
    var db' := Register(db, req, hash, sign, secret, now).0;
    var name := req.username.value;
    forall i | 0 <= i < |db.users| ensures !UsernameIs(name)(db.users[i]) {
      assert db.users[i] in db.users;
    }
    FindSkips(db.users, [db'.users[|db.users|]], UsernameIs(name));
    assert db'.users == db.users + [db'.users[|db.users|]];
  }

  /**
   Registering and then logging in with the same username and password
   succeeds and returns the new user, provided the hash accepts the
   password it was made from.
   */
  lemma RegisterThenLogin(db: Db, req: RegisterRequest, hash: Hasher, compare: Comparer, sign: Signer, secret: string, now: nat, later: nat)
    requires Register(db, req, hash, sign, secret, now).1.status == 200
    requires compare(req.password.value, hash(req.password.value))
    ensures var db' := Register(db, req, hash, sign, secret, now).0;
      var login := Login(db', req.username, req.password, compare, sign, secret, later).1;
      login.status == 200 && login.body.user == Register(db, req, hash, sign, secret, now).1.body.user
  {
    RegisteredUserIsFound(db, req, hash, sign, secret, now);
  }

  /** The same registration a second time is refused for the username. */
  lemma RegisterTwice(db: Db, req: RegisterRequest, hash: Hasher, sign: Signer, secret: string, now: nat, later: nat)
    requires Register(db, req, hash, sign, secret, now).1.status == 200
    ensures var db' := Register(db, req, hash, sign, secret, now).0;
      Register(db', req, hash, sign, secret, later) == (db', AuthResponse(400, AuthFailed("Username already exists")))
  {
    RegisteredUserIsFound(db, req, hash, sign, secret, now);
  }

  // ---------------------------------------------------------------------
  // POST /oauth-complete
  // ---------------------------------------------------------------------

  /**
   The OAuth token exchange: a missing token is 400, a token `verify`
   rejects is 401, a token for a user that no longer exists is 404;
   otherwise the same token is handed back with the user's fields.
   */
  function OauthComplete(db: Db, token: Option<string>, secret: string, verify: Verifier): (r: AuthResponse)
    ensures !Truthy(token) ==> r == AuthResponse(400, AuthFailed("No token provided"))
    ensures Truthy(token) && verify(token.value, secret).None? ==>
      r == AuthResponse(401, AuthFailed("Invalid or expired token"))
    ensures Truthy(token) && verify(token.value, secret).Some? ==>
      var user := FindUserById(db, verify(token.value, secret).value.id);
      && (user.None? ==> r == AuthResponse(404, AuthFailed("User not found")))
      && (user.Some? ==> r == AuthResponse(200, AuthSucceeded(token.value, Public(user.value))))
  {
    if !Truthy(token) then Fail(400, "No token provided")
    else match verify(token.value, secret)
      case None => Fail(401, "Invalid or expired token")
      case Some(claims) =>
        match FindUserById(db, claims.id)
        case None => Fail(404, "User not found")
        case Some(u) => AuthResponse(200, AuthSucceeded(token.value, Public(u)))
  }

  /**
   The token a registration issues completes the OAuth exchange for the
   same user, provided `verify` reads back what `sign` wrote.
   */
  lemma RegisterTokenCompletes(db: Db, req: RegisterRequest, hash: Hasher, sign: Signer, secret: string, verify: Verifier, now: nat)
    requires Wf(db)
    requires Register(db, req, hash, sign, secret, now).1.status == 200
    requires forall c: Claims :: sign(c, secret) != "" && verify(sign(c, secret), secret) == Some(c)
    ensures var (db', reg) := Register(db, req, hash, sign, secret, now);
      OauthComplete(db', Some(reg.body.token), secret, verify) == reg
  {
  }

  // ---------------------------------------------------------------------
  // GET /status
  // ---------------------------------------------------------------------

  /**
   `/status` behind the middleware: an unauthenticated request gets the
   middleware's 401; an authenticated one reports `authenticated: true`
   with the user only when the user row still exists.
   */
  function Status(db: Db, req: TokenRequest, secret: string, verify: Verifier): (r: AuthResponse)
    ensures Authenticate(req, secret, verify).Unauthenticated? ==>
      var a := Authenticate(req, secret, verify);
      r == AuthResponse(401, Unauthorized(a.error, a.redirect))
    ensures r.status == 200 <==> Authenticate(req, secret, verify).Proceed?
    ensures r.status == 200 ==>
      var user := FindUserById(db, Authenticate(req, secret, verify).user.id);
      r.body == StatusReport(user.Some?, if user.Some? then Some(Public(user.value)) else None)
  {
    match Authenticate(req, secret, verify)
    case Unauthenticated(error, redirect) => AuthResponse(401, Unauthorized(error, redirect))
    case Proceed(claims) =>
      match FindUserById(db, claims.id)
      case Some(u) => AuthResponse(200, StatusReport(true, Some(Public(u))))
      case None => AuthResponse(200, StatusReport(false, None))
  }

  /** `authenticated` is true exactly when the row of an authenticated user exists. */
  lemma StatusAuthenticatedIff(db: Db, req: TokenRequest, secret: string, verify: Verifier)
    requires Wf(db)
    ensures var r := Status(db, req, secret, verify);
      r.body.StatusReport? && r.body.authenticated <==>
        && Authenticate(req, secret, verify).Proceed?
        && exists i :: 0 <= i < |db.users| && db.users[i].id == Authenticate(req, secret, verify).user.id
  {
  }

  // ---------------------------------------------------------------------
  // GET /google/callback
  // ---------------------------------------------------------------------

  /** `FRONTEND_URL` as this file computes it: the variable or the default, trailing '/' removed. */
  function FrontendUrl(env: Option<string>): (r: string)
    ensures r == [] || r[|r| - 1] != '/'
  {
    Constants.StripTrailingSlashes(Or(env, Constants.DefaultFrontendUrl))
  }

  /** The route file and the shared configuration agree on the frontend URL. */
  lemma FrontendUrlAgrees(env: Constants.Env)
    ensures FrontendUrl(env.frontendUrl) == Constants.GetEnvConfig(env).frontendUrl
  {
  }

  const NoUserQuery := "error=no_user"
  const TokenParam := "token="
  const SuccessFlag := "oauth=success"

  /** The query string of the success redirect. */
  function SuccessQuery(token: string): string {
    TokenParam + Uri.EncodeURIComponent(token) + "&" + SuccessFlag
  }

  /**
   The redirect after Google sign-in: without a user, to the login page
   with `error=no_user`; otherwise to the login page with the signed,
   URI-encoded token and the success flag.
   */
  function OAuthCallback(env: Option<string>, user: Option<User>, sign: Signer, secret: string): (r: string)
    ensures user.None? ==> r == FrontendUrl(env) + "/login?" + "error=no_user"
    ensures user.Some? ==> r == FrontendUrl(env) + "/login?" + SuccessQuery(sign(ClaimsOf(user.value), secret))
  {
    if user.None? then FrontendUrl(env) + "/login?" + NoUserQuery
    else FrontendUrl(env) + "/login?" + SuccessQuery(sign(ClaimsOf(user.value), secret))
  }

  /**
   The success query has exactly two parameters, and the first decodes to
   the signed token: the encoding keeps the token from breaking the query.
   */
  lemma CallbackTokenRecoverable(token: string)
    ensures var parts := Split(SuccessQuery(token), '&');
      && parts == [TokenParam + Uri.EncodeURIComponent(token), SuccessFlag]
      && Uri.DecodeURIComponent(parts[0][|TokenParam|..]) == Some(token)
  {
    var enc := Uri.EncodeURIComponent(token);
    var first := TokenParam + enc;
    assert '&' !in first by {
      Uri.EncodedHasNoDelimiters(token);
      assert '&' !in TokenParam;
    }
    FlagHasNoAmpersand();
    SplitPair(first, SuccessFlag, '&');
    assert first[|TokenParam|..] == enc;
    Uri.DecodeEncode(token);
  }

  lemma FlagHasNoAmpersand()
    ensures '&' !in SuccessFlag
  {
    assert SuccessFlag == "oauth" + "=success";
  }

  /** Two separator-free pieces joined by the separator split back into the two. */
  lemma SplitPair(a: string, b: string, c: char)
    requires c !in a && c !in b
    ensures Split(a + [c] + b, c) == [a, b]
  {
    SplitAround(a, b, c);
    SplitWithoutSeparator(a, c);
    SplitWithoutSeparator(b, c);
  }

  /** A token in the signing alphabet of JWTs passes through the encoding unchanged. */
  lemma JwtTokenUnencoded(token: string)
    requires forall i :: 0 <= i < |token| ==> Uri.IsUnreserved(token[i])
    ensures SuccessQuery(token) == TokenParam + token + "&" + SuccessFlag
  {
  }
}
