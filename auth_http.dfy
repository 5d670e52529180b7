/**
 * `AuthController` (backend/src/interfaces/http/controllers/auth.controller.ts):
 * the login, refresh and logout routes. Each turns a request into a call of
 * the auth service and the outcome into a status, a body and what happens to
 * the `refreshToken` cookie.
 */
module AuthHttp {
  import opened Wrappers
  import opened Store
  import opened Auth
  import opened ErrorMapping

  /** What a reply does to the `refreshToken` cookie (path `/`, `httpOnly`, `sameSite: 'lax'`). */
  datatype CookieOp =
    | Keep
    | SetRefresh(token: RawToken, expires: Time, secure: bool)
    | ClearRefresh

  datatype Body =
    | AccessTokenBody(accessToken: AccessToken)
    | MessageBody(message: string)
    | HandlerBody(reply: ErrorReply)

  datatype Response = Response(status: int, cookie: CookieOp, body: Body)

  /**
   * The login body as parsed JSON: `emailWellFormed` is whether zod's `email()`
   * check accepts the `email` string.
   */
  datatype LoginRequest = LoginRequest(email: string, emailWellFormed: bool, password: string)

  /** The zod schema `{ email: string().email(), password: string().min(1) }`: the failing fields, in schema order. */
  function ParseLogin(req: LoginRequest): (r: Result<(string, string), seq<string>>)
    ensures r.Ok? <==> req.emailWellFormed && req.password != []
    ensures r.Ok? ==> r.value == (req.email, req.password)
    ensures r.Err? ==> r.error != [] && ("email" in r.error <==> !req.emailWellFormed) && ("password" in r.error <==> req.password == [])
  {
    var issues := (if req.emailWellFormed then [] else ["email"]) + (if req.password != [] then [] else ["password"]);
    if issues == [] then Ok((req.email, req.password)) else Err(issues)
  }

  /** The cookie a successful login or refresh sets: the new raw token, seven days from now, secure in production. */
  function IssueCookie(s: Session, now: Time, production: bool): CookieOp
  {
    SetRefresh(s.refreshToken, now + RefreshLifetime, production)
  }

  /**
   * The login route's reply to the service outcome: the access token alone in
   * the body and the refresh token in the cookie; an error carrying a status
   * code keeps its status and message; bad credentials become a 401 with a
   * Portuguese message; anything else is a 500.
   */
  function LoginReply(r: Result<Session, AuthError>, now: Time, production: bool): (resp: Response)
    ensures r.Ok? <==> resp.status == 200
    ensures r.Ok? ==> resp == Response(200, SetRefresh(r.value.refreshToken, now + RefreshLifetime, production), AccessTokenBody(r.value.accessToken))
    ensures r.Err? ==> resp.cookie == Keep
    ensures r.Err? && StatusCode(r.error).Some? ==> resp == Response(StatusCode(r.error).value, Keep, MessageBody(Message(r.error)))
    ensures r == Err(InvalidCredentials) <==> resp == Response(401, Keep, MessageBody("Credenciais inválidas"))
    ensures resp.status == 500 <==> r.Err? && StatusCode(r.error).None? && r.error != InvalidCredentials
  {
    match r
    case Ok(s) => Response(200, IssueCookie(s, now, production), AccessTokenBody(s.accessToken))
    case Err(e) =>
      if StatusCode(e).Some? then Response(StatusCode(e).value, Keep, MessageBody(Message(e)))
      else if Message(e) == "Invalid credentials" then Response(401, Keep, MessageBody("Credenciais inválidas"))
      else Response(500, Keep, MessageBody("Erro interno no servidor"))
  }

  /**
   * Whatever the login gate decides, the route answers 200, 401 or 403, never
   * 500: every error the gate raises is either bad credentials or carries 403.
   */
  lemma {:induction false} LoginNeverInternal(users: seq<User>, eventos: seq<Evento>, email: string, password: string, now: Time, issued: Session, production: bool)
    ensures var gate := LoginGate(users, eventos, email, password, now);
      var resp := LoginReply(if gate.Ok? then Ok(issued) else Err(gate.error), now, production);
      resp.status in {200, 401, 403} &&
      (resp.status == 403 <==> gate.Err? && gate.error in {NotSummoned, AccessExpired})
  {
    var gate := LoginGate(users, eventos, email, password, now);
    if gate.Err? && gate.error != InvalidCredentials {
      assert gate.error in {NotSummoned, AccessExpired};
    }
  }

  /** The refresh route's reply to the service outcome: any failure clears the cookie and is a bare 401. */
  function RefreshReply(r: Result<Session, AuthError>, now: Time, production: bool): (resp: Response)
    ensures r.Ok? <==> resp.status == 200
    ensures r.Ok? ==> resp == Response(200, SetRefresh(r.value.refreshToken, now + RefreshLifetime, production), AccessTokenBody(r.value.accessToken))
    ensures r.Err? ==> resp == Response(401, ClearRefresh, MessageBody("Unauthorized"))
  {
    match r
    case Ok(s) => Response(200, IssueCookie(s, now, production), AccessTokenBody(s.accessToken))
    case Err(_) => Response(401, ClearRefresh, MessageBody("Unauthorized"))
  }

  /** `!refreshToken`: no cookie, or an empty one. */
  predicate CookieMissing(cookie: Option<RawToken>)
  {
    cookie.None? || cookie.value == Other("")
  }

  /**
   * `POST /auth/login`. A body the schema rejects goes to the global error
   * handler as a 400 and the service is not called.
   */
  method LoginRoute(db: Database, req: LoginRequest, now: Time, production: bool) returns (resp: Response)
    requires db.Valid()
    modifies db`tokens, db`minted, db`nextId
    ensures db.Valid() && Evolves(old(db.tokens), db.tokens)
    ensures ParseLogin(req).Err? ==>
      resp == Response(400, Keep, HandlerBody(GlobalErrorHandler(ZodFailure(ParseLogin(req).error), production))) &&
      db.tokens == old(db.tokens) && db.minted == old(db.minted) && db.nextId == old(db.nextId)
    ensures ParseLogin(req).Ok? ==>
      var gate := LoginGate(old(db.users), old(db.eventos), req.email, req.password, now);
      (resp.status == 200 <==> gate.Ok?) && (gate.Err? ==> resp == LoginReply(Err(gate.error), now, production)) &&
      (gate.Ok? ==> resp == Response(200, SetRefresh(Minted(old(db.minted)), now + RefreshLifetime, production),
                                     AccessTokenBody(Jwt(ClaimsFor(gate.value, old(db.eventos))))))
    ensures resp.status == 200 ==>
      resp.cookie.SetRefresh? && resp.cookie.token == Minted(old(db.minted)) && |db.tokens| == |old(db.tokens)| + 1 &&
      db.tokens[|old(db.tokens)|].tokenHash == Sha256(resp.cookie.token) && resp.cookie.expires == db.tokens[|old(db.tokens)|].expiresAt
  {
    var parsed := ParseLogin(req);
    if parsed.Err? {
      var reply := GlobalErrorHandler(ZodFailure(parsed.error), production);
      return Response(reply.statusCode, Keep, HandlerBody(reply));
    }
    var r := Login(db, parsed.value.0, parsed.value.1, now);
    resp := LoginReply(r, now, production);
  }

  /** `POST /auth/refresh`. A missing cookie is a 401 without calling the service; the cookie is left alone then. */
  method RefreshRoute(db: Database, cookie: Option<RawToken>, now: Time, production: bool) returns (resp: Response)
    requires db.Valid()
    modifies db`tokens, db`minted, db`nextId
    ensures db.Valid() && Evolves(old(db.tokens), db.tokens)
    ensures CookieMissing(cookie) ==>
      resp == Response(401, Keep, MessageBody("Refresh token missing")) &&
      db.tokens == old(db.tokens) && db.minted == old(db.minted) && db.nextId == old(db.nextId)
    ensures !CookieMissing(cookie) && RefreshGate(old(db.tokens), cookie.value, now).Err? ==>
      resp == Response(401, ClearRefresh, MessageBody("Unauthorized")) && db.tokens == old(db.tokens)
    ensures resp.status == 200 ==>
      !CookieMissing(cookie) && RefreshGate(old(db.tokens), cookie.value, now).Ok? && |db.tokens| == |old(db.tokens)| + 1 &&
      db.tokens == Revoke(old(db.tokens), RefreshGate(old(db.tokens), cookie.value, now).value, now) + [db.tokens[|old(db.tokens)|]] &&
      resp.cookie.SetRefresh? && db.tokens[|old(db.tokens)|].tokenHash == Sha256(resp.cookie.token)
    ensures !CookieMissing(cookie) && RefreshGate(old(db.tokens), cookie.value, now).Ok? ==>
      var i := RefreshGate(old(db.tokens), cookie.value, now).value;
      var k := UserById(old(db.users), old(db.tokens)[i].userId);
      (k.None? ==> resp == Response(401, ClearRefresh, MessageBody("Unauthorized")) && db.tokens == old(db.tokens)) &&
      (k.Some? ==>
        resp == Response(200, SetRefresh(Minted(old(db.minted)), now + RefreshLifetime, production),
                         AccessTokenBody(Jwt(ClaimsFor(old(db.users)[k.value], old(db.eventos))))))
    ensures resp.status in {200, 401}
  {
    if CookieMissing(cookie) {
      return Response(401, Keep, MessageBody("Refresh token missing"));
    }
    var r := Refresh(db, cookie.value, now);
    resp := RefreshReply(r, now, production);
  }

  /** `POST /auth/logout`: revokes the presented token when there is one, and always clears the cookie. */
  method LogoutRoute(db: Database, cookie: Option<RawToken>, now: Time) returns (resp: Response)
    requires db.Valid()
    modifies db`tokens
    ensures db.Valid() && Evolves(old(db.tokens), db.tokens)
    ensures resp == Response(200, ClearRefresh, MessageBody("Logged out"))
    ensures CookieMissing(cookie) || TokenByHash(old(db.tokens), Sha256(cookie.value)).None? ==> db.tokens == old(db.tokens)
    ensures !CookieMissing(cookie) && TokenByHash(old(db.tokens), Sha256(cookie.value)).Some? ==>
      db.tokens == Revoke(old(db.tokens), TokenByHash(old(db.tokens), Sha256(cookie.value)).value, now)
  {
    if !CookieMissing(cookie) {
      Logout(db, cookie.value, now);
    }
    resp := Response(200, ClearRefresh, MessageBody("Logged out"));
  }
}
