/**
 * `AuthService` (backend/src/application/services/auth.service.ts): the login
 * gate and the refresh-token table. A refresh token is stored only as its
 * digest; refreshing revokes the presented record and inserts a fresh one, and
 * presenting a revoked token again is reported as reuse.
 */
module Auth {
  import opened Wrappers
  import opened Store

  /** Seven days in milliseconds, the cookie's `7 * 24 * 60 * 60 * 1000`; the stored expiry is taken to be the same span. */
  const RefreshLifetime: int := 604800000

  datatype AuthError =
    | InvalidCredentials
    | NotSummoned
    | AccessExpired
    | InvalidRefreshToken
    | ReuseDetected
    | TokenExpired
    | UserNotFound

  /** The `message` of the error each case throws. */
  function Message(e: AuthError): string
  {
    match e
    case InvalidCredentials => "Invalid credentials"
    case NotSummoned => "Usuário não convocado para evento ativo."
    case AccessExpired => "Acesso expirado. Este evento já foi encerrado."
    case InvalidRefreshToken => "Invalid refresh token"
    case ReuseDetected => "Token revoked - Reuse detected"
    case TokenExpired => "Token expired"
    case UserNotFound => "User not found"
  }

  /** The `statusCode` property the login gate attaches to its two access errors. */
  function StatusCode(e: AuthError): Option<int>
  {
    if e == NotSummoned || e == AccessExpired then Some(403) else None
  }

  /** The claims signed into an access token. */
  datatype Claims = Claims(
    userId: Id, tenantId: Id, role: Role, regionalId: Option<Id>, regionalIds: Option<seq<Id>>,
    ensaioRegionalId: Option<Id>, ensaioRegionalNome: Option<string>,
    ensaioRegionalInicio: Option<Time>, ensaioRegionalFim: Option<Time>)

  /** A signed access token; signing itself is not modelled. */
  datatype AccessToken = Jwt(claims: Claims)

  datatype Session = Session(accessToken: AccessToken, refreshToken: RawToken)

  // ---------------------------------------------------------------- claims

  /** `getRegionalIdsForToken`: the pivot regionals when there are any, else the legacy column, else none. */
  function RegionalIdsForToken(u: User): (ids: seq<Id>)
  {
    if |u.userRegionais| > 0 then u.userRegionais
    else if u.regionalId.Some? then [u.regionalId.value]
    else []
  }

  /** The event a user row links to (`include: { ensaioRegional }`), whatever its tenant or state. */
  function LinkedEvent(u: User, eventos: seq<Evento>): (e: Option<Evento>)
    ensures e.Some? ==> u.ensaioRegionalId == Some(e.value.id) && e.value in eventos
  {
    if u.ensaioRegionalId.None? then None
    else
      var k := FirstWhere(eventos, (ev: Evento) => ev.id == u.ensaioRegionalId.value);
      if k.None? then None else Some(eventos[k.value])
  }

  /** The claims built from a user row, as both `login` and `refresh` build them. */
  function ClaimsFor(u: User, eventos: seq<Evento>): Claims
  {
    var ids := RegionalIdsForToken(u);
    var ev := LinkedEvent(u, eventos);
    Claims(
      u.id, u.tenantId, u.role,
      if u.regionalId.Some? then u.regionalId else if |ids| > 0 then Some(ids[0]) else None,
      if |ids| > 0 then Some(ids) else None,
      u.ensaioRegionalId,
      if ev.Some? then Some(ev.value.nome) else None,
      if ev.Some? then ev.value.dataHoraInicio else None,
      if ev.Some? then ev.value.dataHoraFim else None)
  }

  /**
   * The regional claims agree with each other: both are present or both absent,
   * the list is the pivot whenever the pivot is not empty, and a regional taken
   * from the list is its first element.
   */
  lemma ClaimsRegionals(u: User, eventos: seq<Evento>)
    ensures ClaimsFor(u, eventos).regionalId.None? <==> ClaimsFor(u, eventos).regionalIds.None?
    ensures |u.userRegionais| > 0 ==> ClaimsFor(u, eventos).regionalIds == Some(u.userRegionais)
    ensures u.regionalId.Some? ==> ClaimsFor(u, eventos).regionalId == u.regionalId
    ensures u.regionalId.None? && ClaimsFor(u, eventos).regionalIds.Some? ==>
      ClaimsFor(u, eventos).regionalId == Some(ClaimsFor(u, eventos).regionalIds.value[0])
  {
  }

  // ---------------------------------------------------------------- login

  predicate IsAdminRole(r: Role)
  {
    r == SUPERADMIN || r == ADMIN_REGIONAL || r == ADMIN
  }

  /** JavaScript's `now > t` when `t` may be null: null compares as 0. */
  function AsTime(t: Option<Time>): Time
  {
    if t.Some? then t.value else 0
  }

  /** The first user row with the given email, in any tenant and whether or not it is soft-deleted. */
  function UserByEmail(users: seq<User>, email: string): Option<nat>
  {
    FirstWhere(users, (u: User) => u.email == email)
  }

  /**
   * The checks `login` makes before issuing tokens, in order. An unknown email
   * and a wrong password give the same error; a non-admin must be released and
   * its linked event must not have ended; the three admin roles skip both.
   */
  function LoginGate(users: seq<User>, eventos: seq<Evento>, email: string, password: string, now: Time): (r: Result<User, AuthError>)
    ensures r == Err(InvalidCredentials) <==>
      UserByEmail(users, email).None? || users[UserByEmail(users, email).value].passwordHash != Bcrypt(password)
    ensures r.Ok? ==>
      UserByEmail(users, email).Some? && r.value == users[UserByEmail(users, email).value] && r.value.passwordHash == Bcrypt(password)
    ensures r.Ok? && !IsAdminRole(r.value.role) ==>
      r.value.acessoLiberado && !(LinkedEvent(r.value, eventos).Some? && now > AsTime(LinkedEvent(r.value, eventos).value.dataHoraFim))
    ensures r.Err? && r.error != InvalidCredentials ==>
      var u := users[UserByEmail(users, email).value];
      !IsAdminRole(u.role) && (r.error == NotSummoned <==> !u.acessoLiberado) && (r.error == NotSummoned || r.error == AccessExpired)
    ensures r == Err(AccessExpired) ==>
      UserByEmail(users, email).Some? &&
      var u := users[UserByEmail(users, email).value];
      u.acessoLiberado && LinkedEvent(u, eventos).Some? && now > AsTime(LinkedEvent(u, eventos).value.dataHoraFim)
    ensures r.Ok? <==>
      UserByEmail(users, email).Some? &&
      var u := users[UserByEmail(users, email).value];
      u.passwordHash == Bcrypt(password) &&
      (IsAdminRole(u.role) || (u.acessoLiberado && !(LinkedEvent(u, eventos).Some? && now > AsTime(LinkedEvent(u, eventos).value.dataHoraFim))))
  {
    var k := UserByEmail(users, email);
    if k.None? then Err(InvalidCredentials)
    else
      var u := users[k.value];
      if u.passwordHash != Bcrypt(password) then Err(InvalidCredentials)
      else if !IsAdminRole(u.role) && !u.acessoLiberado then Err(NotSummoned)
      else if !IsAdminRole(u.role) && LinkedEvent(u, eventos).Some? && now > AsTime(LinkedEvent(u, eventos).value.dataHoraFim) then Err(AccessExpired)
      else Ok(u)
  }

  // ---------------------------------------------------------------- the token table

  predicate Unrevoked(t: RefreshToken)
  {
    t.revokedAt.None?
  }

  /** The records of one user that have not been revoked. */
  function LiveCount(tokens: seq<RefreshToken>, userId: Id): nat
  {
    CountWhere(tokens, (t: RefreshToken) => t.userId == userId && t.revokedAt.None?)
  }

  /** `findFirst({ where: { tokenHash } })`. */
  function TokenByHash(tokens: seq<RefreshToken>, h: Digest): Option<nat>
  {
    FirstWhere(tokens, (t: RefreshToken) => t.tokenHash == h)
  }

  /** `update({ where: { id }, data: { revokedAt: now } })` on the record at `i`. */
  function Revoke(tokens: seq<RefreshToken>, i: nat, now: Time): (r: seq<RefreshToken>)
    requires i < |tokens|
    ensures |r| == |tokens| && r[i].revokedAt == Some(now)
  {
    tokens[i := tokens[i].(revokedAt := Some(now))]
  }

  /**
   * The checks `refresh` makes on the presented token, in order: an unknown
   * digest, then a revoked record (even when it has also expired), then expiry.
   */
  function RefreshGate(tokens: seq<RefreshToken>, raw: RawToken, now: Time): (r: Result<nat, AuthError>)
    ensures r.Ok? <==>
      TokenByHash(tokens, Sha256(raw)).Some? && Unrevoked(tokens[TokenByHash(tokens, Sha256(raw)).value]) &&
      now <= tokens[TokenByHash(tokens, Sha256(raw)).value].expiresAt
    ensures r.Ok? ==> r.value < |tokens| && tokens[r.value].tokenHash == Sha256(raw) && TokenByHash(tokens, Sha256(raw)) == Some(r.value)
    ensures r == Err(InvalidRefreshToken) <==> TokenByHash(tokens, Sha256(raw)).None?
    ensures r == Err(ReuseDetected) <==> TokenByHash(tokens, Sha256(raw)).Some? && !Unrevoked(tokens[TokenByHash(tokens, Sha256(raw)).value])
    ensures r.Err? ==> r.error in {InvalidRefreshToken, ReuseDetected, TokenExpired}
  {
    var k := TokenByHash(tokens, Sha256(raw));
    if k.None? then Err(InvalidRefreshToken)
    else if tokens[k.value].revokedAt.Some? then Err(ReuseDetected)
    else if now > tokens[k.value].expiresAt then Err(TokenExpired)
    else Ok(k.value)
  }

  /**
   * How the token table may change: no record disappears, a record keeps
   * everything but its revocation time, and a revoked record stays revoked.
   */
  ghost predicate Evolves(before: seq<RefreshToken>, after: seq<RefreshToken>)
  {
    |before| <= |after| &&
    forall i | 0 <= i < |before| ::
      after[i].(revokedAt := None) == before[i].(revokedAt := None) &&
      (before[i].revokedAt.Some? ==> after[i].revokedAt.Some?)
  }

  lemma EvolvesTransitive(a: seq<RefreshToken>, b: seq<RefreshToken>, c: seq<RefreshToken>)
    requires Evolves(a, b) && Evolves(b, c)
    ensures Evolves(a, c)
  {
  }

  /** Revoking a record and appending another is a permitted change of the table. */
  lemma RevokeEvolves(tokens: seq<RefreshToken>, i: nat, now: Time, added: seq<RefreshToken>)
    requires i < |tokens|
    ensures Evolves(tokens, Revoke(tokens, i, now) + added)
  {
  }

  /**
   * Rotating a live record keeps the number of live records of every user:
   * the presented record stops being live and the inserted one, of the same
   * user, starts.
   */
  lemma RotateKeepsLiveCount(tokens: seq<RefreshToken>, i: nat, now: Time, issued: RefreshToken, userId: Id)
    requires i < |tokens| && Unrevoked(tokens[i]) && Unrevoked(issued) && issued.userId == tokens[i].userId
    ensures LiveCount(Revoke(tokens, i, now) + [issued], userId) == LiveCount(tokens, userId)
  {
    var p := (t: RefreshToken) => t.userId == userId && t.revokedAt.None?;
    CountAppend(Revoke(tokens, i, now), [issued], p);
    CountUpdate(tokens, i, tokens[i].(revokedAt := Some(now)), p);
  }

  /** After a successful refresh, presenting the same raw token again is always reported as reuse. */
  lemma ReplayIsReuse(tokens: seq<RefreshToken>, raw: RawToken, now: Time, issued: RefreshToken, later: Time)
    requires RefreshGate(tokens, raw, now).Ok?
    ensures RefreshGate(Revoke(tokens, RefreshGate(tokens, raw, now).value, now) + [issued], raw, later) == Err(ReuseDetected)
  {
    var i := RefreshGate(tokens, raw, now).value;
    var after := Revoke(tokens, i, now) + [issued];
    var p := (t: RefreshToken) => t.tokenHash == Sha256(raw);
    assert after[i] == tokens[i].(revokedAt := Some(now));
    assert forall j | 0 <= j < i :: after[j] == tokens[j];
    FirstWhereAt(after, p, i);
  }

  /** A token minted after every stored one matches no stored record. */
  lemma MintedUnknown(db: Database)
    requires db.Valid()
    ensures TokenByHash(db.tokens, Sha256(Minted(db.minted))).None?
  {
    var tokens, h := db.tokens, Sha256(Minted(db.minted));
    var p := (t: RefreshToken) => t.tokenHash == h;
    forall j | 0 <= j < |tokens| ensures !p(tokens[j]) {
    }
  }

  // ---------------------------------------------------------------- the service

  /**
   * `login`: on success exactly one unrevoked record is added, holding the
   * digest of the returned raw token and expiring seven days from now;
   * nothing else in the database changes, and on failure nothing changes.
   */
  method Login(db: Database, email: string, password: string, now: Time) returns (r: Result<Session, AuthError>)
    requires db.Valid()
    modifies db`tokens, db`minted, db`nextId
    ensures db.Valid() && Evolves(old(db.tokens), db.tokens)
    ensures var gate := LoginGate(old(db.users), old(db.eventos), email, password, now);
      (r.Err? <==> gate.Err?) && (r.Err? ==> r.error == gate.error)
    ensures r.Err? ==> db.tokens == old(db.tokens) && db.minted == old(db.minted) && db.nextId == old(db.nextId)
    ensures r.Ok? ==>
      var u := LoginGate(old(db.users), old(db.eventos), email, password, now).value;
      r.value.refreshToken == Minted(old(db.minted)) &&
      TokenByHash(old(db.tokens), Sha256(r.value.refreshToken)).None? &&
      r.value.accessToken == Jwt(ClaimsFor(u, old(db.eventos))) &&
      db.tokens == old(db.tokens) + [RefreshToken(old(db.nextId), u.id, u.tenantId, Sha256(r.value.refreshToken), now + RefreshLifetime, None)] &&
      db.minted == old(db.minted) + 1 && db.nextId == old(db.nextId) + 1
  {
    var gate := LoginGate(db.users, db.eventos, email, password, now);
    if gate.Err? {
      return Err(gate.error);
    }
    var u := gate.value;
    var access := Jwt(ClaimsFor(u, db.eventos));
    var raw := Minted(db.minted);
    MintedUnknown(db);
    db.minted := db.minted + 1;
    db.tokens := db.tokens + [RefreshToken(db.nextId, u.id, u.tenantId, Sha256(raw), now + RefreshLifetime, None)];
    db.nextId := db.nextId + 1;
    r := Ok(Session(access, raw));
  }

  /** `findUnique({ where: { id } })` on users: soft-deleted rows are found too. */
  function UserById(users: seq<User>, id: Id): Option<nat>
  {
    FirstWhere(users, (u: User) => u.id == id)
  }

  /**
   * `refresh`, one transaction: the presented record is revoked and exactly one
   * fresh unrevoked record of the same user is inserted; the access token is
   * built from the user's row as it is now. Any failure leaves the table as it was.
   */
  method Refresh(db: Database, raw: RawToken, now: Time) returns (r: Result<Session, AuthError>)
    requires db.Valid()
    modifies db`tokens, db`minted, db`nextId
    ensures db.Valid() && Evolves(old(db.tokens), db.tokens)
    ensures var gate := RefreshGate(old(db.tokens), raw, now);
      (gate.Err? ==> r == Err(gate.error)) &&
      (gate.Ok? ==> (r == Err(UserNotFound) <==> UserById(old(db.users), old(db.tokens)[gate.value].userId).None?)) &&
      (gate.Ok? && UserById(old(db.users), old(db.tokens)[gate.value].userId).Some? ==> r.Ok?)
    ensures r.Err? ==> db.tokens == old(db.tokens) && db.minted == old(db.minted) && db.nextId == old(db.nextId)
    ensures r.Ok? ==>
      var i := RefreshGate(old(db.tokens), raw, now).value;
      var u := old(db.users)[UserById(old(db.users), old(db.tokens)[i].userId).value];
      u.id == old(db.tokens)[i].userId &&
      r.value.refreshToken == Minted(old(db.minted)) &&
      r.value.accessToken == Jwt(ClaimsFor(u, old(db.eventos))) &&
      db.tokens == Revoke(old(db.tokens), i, now) + [RefreshToken(old(db.nextId), u.id, u.tenantId, Sha256(r.value.refreshToken), now + RefreshLifetime, None)] &&
      db.minted == old(db.minted) + 1 && db.nextId == old(db.nextId) + 1 &&
      forall id: Id :: LiveCount(db.tokens, id) == LiveCount(old(db.tokens), id)
  {
    var gate := RefreshGate(db.tokens, raw, now);
    if gate.Err? {
      return Err(gate.error);
    }
    var i := gate.value;
    var revoked := Revoke(db.tokens, i, now);
    var k := UserById(db.users, db.tokens[i].userId);
    if k.None? {
      // the transaction rolls back the revocation
      return Err(UserNotFound);
    }
    var u := db.users[k.value];
    var access := Jwt(ClaimsFor(u, db.eventos));
    var minted := Minted(db.minted);
    var record := RefreshToken(db.nextId, u.id, u.tenantId, Sha256(minted), now + RefreshLifetime, None);
    forall id: Id ensures LiveCount(revoked + [record], id) == LiveCount(db.tokens, id) {
      RotateKeepsLiveCount(db.tokens, i, now, record, id);
    }
    RevokeEvolves(db.tokens, i, now, [record]);
    db.minted := db.minted + 1;
    db.tokens := revoked + [record];
    db.nextId := db.nextId + 1;
    r := Ok(Session(access, minted));
  }

  /**
   * `logout`: an unknown token changes nothing; a known one only gets its
   * revocation time set, whether or not it was already revoked.
   */
  method Logout(db: Database, raw: RawToken, now: Time)
    requires db.Valid()
    modifies db`tokens
    ensures db.Valid() && Evolves(old(db.tokens), db.tokens)
    ensures TokenByHash(old(db.tokens), Sha256(raw)).None? ==> db.tokens == old(db.tokens)
    ensures TokenByHash(old(db.tokens), Sha256(raw)).Some? ==>
      db.tokens == Revoke(old(db.tokens), TokenByHash(old(db.tokens), Sha256(raw)).value, now)
  {
    var k := TokenByHash(db.tokens, Sha256(raw));
    if k.Some? {
      RevokeEvolves(db.tokens, k.value, now, []);
      assert Revoke(db.tokens, k.value, now) + [] == Revoke(db.tokens, k.value, now);
      db.tokens := Revoke(db.tokens, k.value, now);
    }
  }
}
