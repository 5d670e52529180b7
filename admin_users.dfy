/**
 * `AdminUserService` (backend/src/application/services/admin-user.service.ts):
 * a tenant administrator's management of the user table — creation with a
 * per-tenant unique e-mail, partial update, soft delete, and the link to an
 * event that also decides whether the user may log in (`acessoLiberado`).
 * Two guards keep at least one live ADMIN in every tenant that has one.
 */
module AdminUsers {
  import opened Wrappers
  import opened Store
  import opened Text
  import Events

  /** The roles the service accepts on create and update: `'ADMIN' | 'USER'`. */
  type AssignableRole = r: Role | r == ADMIN || r == USER witness ADMIN

  datatype UserError =
    | EmailTakenByRemoved
    | EmailTaken
    | UserNotFound
    | EmailInUse
    | LastAdminDemoted
    | SelfDelete
    | LastAdminDeleted
    | EventNotInTenant

  /** The message each error is thrown with; the admin controller replies 400 with it. */
  function Message(e: UserError): string
  {
    match e
    case EmailTakenByRemoved => "Usuário com este e-mail já existe (foi removido)."
    case EmailTaken => "Usuário com este e-mail já existe."
    case UserNotFound => "Usuário não encontrado."
    case EmailInUse => "Este e-mail já está em uso por outro usuário."
    case LastAdminDemoted => "Não é possível remover o último administrador do tenant."
    case SelfDelete => "Não é possível excluir a si mesmo."
    case LastAdminDeleted => "Não é possível excluir o último administrador do tenant."
    case EventNotInTenant => "Evento não encontrado para este tenant."
  }

  // ---------------------------------------------------------------- queries

  predicate LiveIn(u: User, tenant: Id)
  {
    u.tenantId == tenant && u.deletedAt.None?
  }

  /** `getById`: the live user of the tenant with that id. */
  function FindLive(users: seq<User>, tenant: Id, id: Id): (r: Option<nat>)
    ensures r.Some? ==> r.value < |users| && users[r.value].id == id && LiveIn(users[r.value], tenant)
    ensures r.None? ==> forall j | 0 <= j < |users| :: !(users[j].id == id && LiveIn(users[j], tenant))
  {
    FirstWhere(users, (u: User) => u.id == id && LiveIn(u, tenant))
  }

  /** `findUnique` on the (tenantId, email) key: live and removed users alike. */
  function FindByEmail(users: seq<User>, tenant: Id, email: string): (r: Option<nat>)
    ensures r.Some? ==> r.value < |users| && users[r.value].tenantId == tenant && users[r.value].email == email
    ensures r.None? ==> forall j | 0 <= j < |users| :: !(users[j].tenantId == tenant && users[j].email == email)
  {
    FirstWhere(users, (u: User) => u.tenantId == tenant && u.email == email)
  }

  /** `list`: the tenant's live users (the ordering by `name` is not modelled). */
  function ListUsers(users: seq<User>, tenant: Id): (r: seq<User>)
    ensures forall x :: x in r <==> x in users && LiveIn(x, tenant)
  {
    Where(users, (u: User) => LiveIn(u, tenant))
  }

  predicate LiveAdmin(u: User, tenant: Id)
  {
    LiveIn(u, tenant) && u.role == ADMIN
  }

  /** `user.count({ where: { tenantId, role: 'ADMIN', deletedAt: null } })`. */
  function LiveAdmins(users: seq<User>, tenant: Id): nat
  {
    CountWhere(users, (u: User) => LiveAdmin(u, tenant))
  }

  /**
   * The user table's keys: every id was drawn from the counter and names one
   * row, and no two rows of a tenant, live or removed, share an e-mail.
   */
  predicate UsersValid(users: seq<User>, nextId: nat)
  {
    (forall j | 0 <= j < |users| :: users[j].id < nextId) &&
    (forall i, j | 0 <= i < j < |users| :: users[i].id != users[j].id) &&
    (forall i, j | 0 <= i < j < |users| && users[i].tenantId == users[j].tenantId :: users[i].email != users[j].email)
  }

  // ---------------------------------------------------------------- create

  /** The body of `create`; `password` is the plain text the controller passes as `passwordHash`. */
  datatype NewUser = NewUser(name: string, email: string, password: string, role: AssignableRole, ensaioRegionalId: Option<Id>)

  function NewUserRow(input: NewUser, tenant: Id, id: Id): User
  {
    User(id, tenant, input.name, input.email, Bcrypt(input.password), input.role,
      input.ensaioRegionalId.Some?, input.ensaioRegionalId, None, [], None)
  }

  /** `create`: an e-mail already held in the tenant is refused, with its own message when that user was removed. */
  function CreatedUser(users: seq<User>, nextId: nat, input: NewUser, tenant: Id): Result<User, UserError>
  {
    var k := FindByEmail(users, tenant, input.email);
    if k.Some? then
      if users[k.value].deletedAt.Some? then Err(EmailTakenByRemoved) else Err(EmailTaken)
    else Ok(NewUserRow(input, tenant, nextId))
  }

  /**
   * What `create` accepts and stores: it succeeds exactly when no user of the
   * tenant, live or removed, holds the e-mail, and says which of the two the
   * holder is; the new user is live in the tenant with a fresh id, the hash
   * of the given password, the given role and event link, and may log in
   * exactly when an event was given.
   */
  lemma CreatedUserSpec(users: seq<User>, nextId: nat, input: NewUser, tenant: Id)
    requires UsersValid(users, nextId)
    ensures var r := CreatedUser(users, nextId, input, tenant);
      r.Ok? <==> forall j | 0 <= j < |users| :: !(users[j].tenantId == tenant && users[j].email == input.email)
    ensures var r := CreatedUser(users, nextId, input, tenant);
      r == Err(EmailTakenByRemoved) <==>
        exists j | 0 <= j < |users| :: users[j].tenantId == tenant && users[j].email == input.email && users[j].deletedAt.Some?
    ensures var r := CreatedUser(users, nextId, input, tenant);
      r == Err(EmailTaken) <==>
        exists j | 0 <= j < |users| :: users[j].tenantId == tenant && users[j].email == input.email && users[j].deletedAt.None?
    ensures var r := CreatedUser(users, nextId, input, tenant);
      r.Ok? ==>
        r.value.id == nextId && LiveIn(r.value, tenant) && r.value.email == input.email &&
        r.value.passwordHash == Bcrypt(input.password) && r.value.role == input.role &&
        r.value.ensaioRegionalId == input.ensaioRegionalId && (r.value.acessoLiberado <==> input.ensaioRegionalId.Some?)
  {
    var k := FindByEmail(users, tenant, input.email);
    if k.Some? {
      forall j | 0 <= j < |users| && users[j].tenantId == tenant && users[j].email == input.email
        ensures j == k.value
      {
      }
    }
  }

  /** A created user keeps the table's keys: its id is fresh and its e-mail free in the tenant. */
  lemma CreatedUserKeepsValid(users: seq<User>, nextId: nat, input: NewUser, tenant: Id)
    requires UsersValid(users, nextId)
    ensures var r := CreatedUser(users, nextId, input, tenant);
      r.Ok? ==> UsersValid(users + [r.value], nextId + 1)
  {
  }

  /** `create` (the salt of `bcrypt.hash` is not modelled): the e-mail check, then one appended row with the next key. */
  method CreateUser(db: Database, input: NewUser, tenant: Id) returns (r: Result<User, UserError>)
    modifies db`users, db`nextId
    ensures r == CreatedUser(old(db.users), old(db.nextId), input, tenant)
    ensures r.Ok? ==> db.users == old(db.users) + [r.value] && db.nextId == old(db.nextId) + 1
    ensures r.Err? ==> db.users == old(db.users) && db.nextId == old(db.nextId)
  {
    var existing := FindByEmail(db.users, tenant, input.email);
    if existing.Some? {
      if db.users[existing.value].deletedAt.Some? {
        return Err(EmailTakenByRemoved);
      }
      return Err(EmailTaken);
    }
    var row := NewUserRow(input, tenant, db.nextId);
    db.users := db.users + [row];
    db.nextId := db.nextId + 1;
    r := Ok(row);
  }

  // ---------------------------------------------------------------- update

  /**
   * The body of `update`: an absent field is left as it is; `ensaioRegionalId`
   * may also be sent as `null`, which unlinks the user.
   */
  datatype UserChanges = UserChanges(
    name: Option<string>, email: Option<string>, password: Option<string>,
    role: Option<AssignableRole>, ensaioRegionalId: Option<Option<Id>>)

  /**
   * The `updateData` object written over a user: every supplied field, the
   * access flag recomputed only when the link is supplied, and a new hash only
   * for a non-empty password.
   */
  function Changed(u: User, c: UserChanges): User
  {
    u.(name := Events.Pick(c.name, u.name), email := Events.Pick(c.email, u.email),
       role := if c.role.Some? then c.role.value else u.role,
       ensaioRegionalId := Events.Pick(c.ensaioRegionalId, u.ensaioRegionalId),
       acessoLiberado := if c.ensaioRegionalId.Some? then c.ensaioRegionalId.value.Some? else u.acessoLiberado,
       passwordHash := if Truthy(c.password) then Bcrypt(c.password.value) else u.passwordHash)
  }

  /** A user may log in exactly when linked to an event, as `create` and `assignEvento` leave every row. */
  predicate AccessFollowsLink(u: User)
  {
    u.acessoLiberado <==> u.ensaioRegionalId.Some?
  }

  /**
   * The update keeps the row's identity, tenant and deletion stamp; applied
   * twice it changes nothing more; with no field supplied it is the identity;
   * it keeps access tied to the event link; and a supplied link decides access
   * whatever the row held before.
   */
  lemma ChangedSpec(u: User, c: UserChanges)
    ensures var v := Changed(u, c);
      v.id == u.id && v.tenantId == u.tenantId && v.deletedAt == u.deletedAt &&
      v.regionalId == u.regionalId && v.userRegionais == u.userRegionais
    ensures Changed(Changed(u, c), c) == Changed(u, c)
    ensures Changed(u, UserChanges(None, None, None, None, None)) == u
    ensures AccessFollowsLink(u) ==> AccessFollowsLink(Changed(u, c))
    ensures c.ensaioRegionalId.Some? ==> AccessFollowsLink(Changed(u, c))
    ensures ((c.role.Some? && c.role.value == ADMIN) ==> Changed(u, c).role == ADMIN) && (c.role.None? ==> Changed(u, c).role == u.role)
  {
  }

  /** The e-mail check: a non-empty e-mail other than the current one that some user of the tenant, live or removed, holds. */
  predicate EmailClash(users: seq<User>, tenant: Id, current: User, c: UserChanges)
  {
    Truthy(c.email) && c.email.value != current.email && FindByEmail(users, tenant, c.email.value).Some?
  }

  predicate Demotes(current: User, c: UserChanges)
  {
    (c.role.Some? && c.role.value == USER) && current.role == ADMIN
  }

  /** `update`: not found, e-mail in use, last ADMIN, in that order; then the row is rewritten. */
  function UpdatedUser(users: seq<User>, tenant: Id, id: Id, c: UserChanges): Result<(seq<User>, User), UserError>
  {
    var k := FindLive(users, tenant, id);
    if k.None? then Err(UserNotFound)
    else if EmailClash(users, tenant, users[k.value], c) then Err(EmailInUse)
    else if Demotes(users[k.value], c) && LiveAdmins(users, tenant) <= 1 then Err(LastAdminDemoted)
    else
      var u := Changed(users[k.value], c);
      Ok((users[k.value := u], u))
  }

  /**
   * When `update` refuses, and what it writes: a missing or removed user, a
   * new e-mail that any user of the tenant holds, or demoting an ADMIN while
   * at most one live ADMIN is left; otherwise the user's own row, and no other,
   * is rewritten.
   */
  lemma UpdatedUserSpec(users: seq<User>, tenant: Id, id: Id, c: UserChanges)
    ensures UpdatedUser(users, tenant, id, c) == Err(UserNotFound) <==>
      forall j | 0 <= j < |users| :: !(users[j].id == id && LiveIn(users[j], tenant))
    ensures var k := FindLive(users, tenant, id);
      k.Some? ==>
        (UpdatedUser(users, tenant, id, c) == Err(EmailInUse) <==>
          Truthy(c.email) && c.email.value != users[k.value].email &&
          exists j | 0 <= j < |users| :: users[j].tenantId == tenant && users[j].email == c.email.value)
    ensures var k := FindLive(users, tenant, id);
      k.Some? && !EmailClash(users, tenant, users[k.value], c) ==>
        (UpdatedUser(users, tenant, id, c) == Err(LastAdminDemoted) <==>
          (c.role.Some? && c.role.value == USER) && users[k.value].role == ADMIN && LiveAdmins(users, tenant) <= 1)
    ensures var r := UpdatedUser(users, tenant, id, c);
      r.Ok? ==>
        var k := FindLive(users, tenant, id).value;
        |r.value.0| == |users| && r.value.0[k] == r.value.1 == Changed(users[k], c) &&
        r.value.1.id == id && LiveIn(r.value.1, tenant) &&
        forall j | 0 <= j < |users| && j != k :: r.value.0[j] == users[j]
  {
    var k := FindLive(users, tenant, id);
    if k.Some? && Truthy(c.email) && c.email.value != users[k.value].email {
      var e := FindByEmail(users, tenant, c.email.value);
      if e.Some? {
        assert users[e.value].tenantId == tenant && users[e.value].email == c.email.value;
      }
    }
  }

  /**
   * An update keeps the table's keys when the e-mail it writes is not the
   * empty string; the route's schema (`z.string().email()`) never lets one
   * through, while the service skips the check for it.
   */
  lemma UpdatedUserKeepsValid(users: seq<User>, nextId: nat, tenant: Id, id: Id, c: UserChanges)
    requires UsersValid(users, nextId)
    requires c.email != Some("")
    ensures var r := UpdatedUser(users, tenant, id, c);
      r.Ok? ==> UsersValid(r.value.0, nextId)
  {
    var r := UpdatedUser(users, tenant, id, c);
    if r.Ok? {
      var k := FindLive(users, tenant, id).value;
      var t := r.value.0;
      forall i, j | 0 <= i < j < |t| && t[i].tenantId == t[j].tenantId
        ensures t[i].email != t[j].email
      {
        if (i == k || j == k) && c.email.Some? && c.email.value != users[k].email {
          assert FindByEmail(users, tenant, c.email.value).None?;
        }
      }
    }
  }

  /**
   * The last-ADMIN guard of `update`: no tenant that had a live ADMIN is left
   * without one; only a demotion removes an ADMIN, and then exactly one.
   */
  lemma UpdateKeepsAnAdmin(users: seq<User>, tenant: Id, id: Id, c: UserChanges)
    ensures var r := UpdatedUser(users, tenant, id, c);
      r.Ok? ==> forall t | LiveAdmins(users, t) >= 1 :: LiveAdmins(r.value.0, t) >= 1
    ensures var r := UpdatedUser(users, tenant, id, c);
      r.Ok? && !((c.role.Some? && c.role.value == USER)) ==> LiveAdmins(r.value.0, tenant) >= LiveAdmins(users, tenant)
  {
    var r := UpdatedUser(users, tenant, id, c);
    if r.Ok? {
      var k := FindLive(users, tenant, id).value;
      forall t ensures LiveAdmins(r.value.0, t) + (if LiveAdmin(users[k], t) then 1 else 0) ==
        LiveAdmins(users, t) + (if LiveAdmin(r.value.1, t) then 1 else 0)
      {
        CountUpdate(users, k, r.value.1, (u: User) => LiveAdmin(u, t));
      }
    }
  }

  /**
   * `update`, building `updateData` field by field as the service does (the
   * salt of `bcrypt.hash` is not modelled).
   */
  method UpdateUser(db: Database, tenant: Id, id: Id, c: UserChanges) returns (r: Result<User, UserError>)
    modifies db`users
    ensures var u := UpdatedUser(old(db.users), tenant, id, c);
      (u.Err? ==> r == Err(u.error) && db.users == old(db.users)) &&
      (u.Ok? ==> r == Ok(u.value.1) && db.users == u.value.0)
  {
    var k := FindLive(db.users, tenant, id);
    if k.None? {
      return Err(UserNotFound);
    }
    var user := db.users[k.value];
    if Truthy(c.email) && c.email.value != user.email {
      var existing := FindByEmail(db.users, tenant, c.email.value);
      if existing.Some? {
        return Err(EmailInUse);
      }
    }
    var updated := user.(name := Events.Pick(c.name, user.name), email := Events.Pick(c.email, user.email));
    if c.role.Some? {
      updated := updated.(role := c.role.value);
    }
    updated := updated.(ensaioRegionalId := Events.Pick(c.ensaioRegionalId, user.ensaioRegionalId));
    if c.ensaioRegionalId.Some? {
      updated := updated.(acessoLiberado := c.ensaioRegionalId.value.Some?);
    }
    if Truthy(c.password) {
      updated := updated.(passwordHash := Bcrypt(c.password.value));
    }
    if (c.role.Some? && c.role.value == USER) && user.role == ADMIN {
      var admins := LiveAdmins(db.users, tenant);
      if admins <= 1 {
        return Err(LastAdminDemoted);
      }
    }
    db.users := db.users[k.value := updated];
    r := Ok(updated);
  }

  // ---------------------------------------------------------------- delete

  /**
   * `delete`: the requester may not delete themself, the user must be live in
   * the tenant, and the last live ADMIN stays; otherwise only the deletion
   * stamp is set. `requester` is `None` when the caller passes `undefined`.
   */
  function DeletedUser(users: seq<User>, tenant: Id, id: Id, requester: Option<Id>, now: Time): Result<(seq<User>, User), UserError>
  {
    if requester == Some(id) then Err(SelfDelete)
    else
      var k := FindLive(users, tenant, id);
      if k.None? then Err(UserNotFound)
      else if users[k.value].role == ADMIN && LiveAdmins(users, tenant) <= 1 then Err(LastAdminDeleted)
      else
        var u := users[k.value].(deletedAt := Some(now));
        Ok((users[k.value := u], u))
  }

  /**
   * When `delete` refuses, and what it does otherwise: the user, and no
   * other row, is stamped as deleted and is gone from `getById` and `list`.
   */
  lemma DeletedUserSpec(users: seq<User>, nextId: nat, tenant: Id, id: Id, requester: Option<Id>, now: Time)
    requires UsersValid(users, nextId)
    ensures DeletedUser(users, tenant, id, requester, now) == Err(SelfDelete) <==> requester == Some(id)
    ensures DeletedUser(users, tenant, id, requester, now) == Err(UserNotFound) <==>
      requester != Some(id) && forall j | 0 <= j < |users| :: !(users[j].id == id && LiveIn(users[j], tenant))
    ensures DeletedUser(users, tenant, id, requester, now) == Err(LastAdminDeleted) <==>
      requester != Some(id) && FindLive(users, tenant, id).Some? &&
      users[FindLive(users, tenant, id).value].role == ADMIN && LiveAdmins(users, tenant) <= 1
    ensures var r := DeletedUser(users, tenant, id, requester, now);
      r.Ok? ==>
        var k := FindLive(users, tenant, id).value;
        r.value.0 == users[k := users[k].(deletedAt := Some(now))] &&
        UsersValid(r.value.0, nextId) && FindLive(r.value.0, tenant, id).None? &&
        forall x | x in ListUsers(r.value.0, tenant) :: x.id != id
  {
    var r := DeletedUser(users, tenant, id, requester, now);
    if r.Ok? {
      var k := FindLive(users, tenant, id).value;
      var t := r.value.0;
      forall j | 0 <= j < |t| ensures !(t[j].id == id && LiveIn(t[j], tenant)) {
        if j != k {
          assert users[j].id != users[k].id;
        }
      }
    }
  }

  /** The last-ADMIN guard of `delete`: no tenant that had a live ADMIN is left without one. */
  lemma DeleteKeepsAnAdmin(users: seq<User>, tenant: Id, id: Id, requester: Option<Id>, now: Time)
    ensures var r := DeletedUser(users, tenant, id, requester, now);
      r.Ok? ==> forall t | LiveAdmins(users, t) >= 1 :: LiveAdmins(r.value.0, t) >= 1
  {
    var r := DeletedUser(users, tenant, id, requester, now);
    if r.Ok? {
      var k := FindLive(users, tenant, id).value;
      forall t ensures LiveAdmins(r.value.0, t) + (if LiveAdmin(users[k], t) then 1 else 0) ==
        LiveAdmins(users, t) + (if LiveAdmin(r.value.1, t) then 1 else 0)
      {
        CountUpdate(users, k, r.value.1, (u: User) => LiveAdmin(u, t));
      }
    }
  }

  method DeleteUser(db: Database, tenant: Id, id: Id, requester: Option<Id>, now: Time) returns (r: Result<User, UserError>)
    modifies db`users
    ensures var u := DeletedUser(old(db.users), tenant, id, requester, now);
      (u.Err? ==> r == Err(u.error) && db.users == old(db.users)) &&
      (u.Ok? ==> r == Ok(u.value.1) && db.users == u.value.0)
  {
    if requester == Some(id) {
      return Err(SelfDelete);
    }
    var k := FindLive(db.users, tenant, id);
    if k.None? {
      return Err(UserNotFound);
    }
    if db.users[k.value].role == ADMIN {
      var admins := LiveAdmins(db.users, tenant);
      if admins <= 1 {
        return Err(LastAdminDeleted);
      }
    }
    var removed := db.users[k.value].(deletedAt := Some(now));
    db.users := db.users[k.value := removed];
    r := Ok(removed);
  }

  // ---------------------------------------------------------------- event link

  /** `assignEvento`: the user must be live in the tenant, and a given event live in the same tenant. */
  function Assigned(users: seq<User>, eventos: seq<Evento>, tenant: Id, userId: Id, eventoId: Option<Id>): Result<(seq<User>, User), UserError>
  {
    var k := FindLive(users, tenant, userId);
    if k.None? then Err(UserNotFound)
    else if eventoId.Some? && Events.FindEvent(eventos, tenant, eventoId.value).None? then Err(EventNotInTenant)
    else
      var u := users[k.value].(ensaioRegionalId := eventoId, acessoLiberado := eventoId.Some?);
      Ok((users[k.value := u], u))
  }

  /**
   * `assignEvento` links the user to a live event of their own tenant, or
   * unlinks them, and the user may log in exactly when linked; nothing else
   * in the table changes.
   */
  lemma AssignedSpec(users: seq<User>, eventos: seq<Evento>, tenant: Id, userId: Id, eventoId: Option<Id>)
    ensures var r := Assigned(users, eventos, tenant, userId, eventoId);
      r.Ok? <==>
        FindLive(users, tenant, userId).Some? &&
        (eventoId.Some? ==> exists j | 0 <= j < |eventos| :: eventos[j].id == eventoId.value && Events.LiveIn(eventos[j], tenant))
    ensures var r := Assigned(users, eventos, tenant, userId, eventoId);
      r == Err(UserNotFound) <==> forall j | 0 <= j < |users| :: !(users[j].id == userId && LiveIn(users[j], tenant))
    ensures var r := Assigned(users, eventos, tenant, userId, eventoId);
      r.Ok? ==>
        var k := FindLive(users, tenant, userId).value;
        |r.value.0| == |users| && r.value.0[k] == r.value.1 &&
        r.value.1 == users[k].(ensaioRegionalId := eventoId, acessoLiberado := eventoId.Some?) &&
        AccessFollowsLink(r.value.1) && LiveIn(r.value.1, tenant) &&
        forall j | 0 <= j < |users| && j != k :: r.value.0[j] == users[j]
  {
    if eventoId.Some? {
      var e := Events.FindEvent(eventos, tenant, eventoId.value);
      if e.Some? {
        assert eventos[e.value].id == eventoId.value && Events.LiveIn(eventos[e.value], tenant);
      }
    }
  }

  method AssignEvento(db: Database, tenant: Id, userId: Id, eventoId: Option<Id>) returns (r: Result<User, UserError>)
    modifies db`users
    ensures var u := Assigned(old(db.users), db.eventos, tenant, userId, eventoId);
      (u.Err? ==> r == Err(u.error) && db.users == old(db.users)) &&
      (u.Ok? ==> r == Ok(u.value.1) && db.users == u.value.0)
  {
    var k := FindLive(db.users, tenant, userId);
    if k.None? {
      return Err(UserNotFound);
    }
    if eventoId.Some? {
      var evento := Events.FindEvent(db.eventos, tenant, eventoId.value);
      if evento.None? {
        return Err(EventNotInTenant);
      }
    }
    var linked := db.users[k.value].(ensaioRegionalId := eventoId, acessoLiberado := eventoId.Some?);
    db.users := db.users[k.value := linked];
    r := Ok(linked);
  }

  // ---------------------------------------------------------------- the delete route

  /** The claims `verifyJwt` puts on the request: `userId`, `tenantId` and `role`, and no `sub`. */
  datatype Claims = Claims(userId: Id, tenantId: Id, role: Role)

  /**
   * `DELETE /admin/users/:id` as written: the requester is read from
   * `request.user.sub`, which the claims never carry, so the service is
   * always called with `undefined`.
   */
  function DeleteRouteAsWritten(users: seq<User>, claims: Claims, id: Id, now: Time): Result<(seq<User>, User), UserError>
  {
    DeletedUser(users, claims.tenantId, id, None, now)
  }

  /**
   * The route as written lets an ADMIN delete themself: here tenant 0 has two
   * live ADMINs, user 0 deletes their own account and the route goes through.
   */
  lemma SelfDeleteAsWritten()
    ensures exists users: seq<User>, claims: Claims ::
      |users| > 0 && users[0].id == claims.userId && LiveAdmin(users[0], claims.tenantId) &&
      DeleteRouteAsWritten(users, claims, claims.userId, 5) == Ok((users[0 := users[0].(deletedAt := Some(5))], users[0].(deletedAt := Some(5))))
  {
    var a := User(0, 0, "Ana", "a@x", Bcrypt("secret"), ADMIN, false, None, None, [], None);
    var b := a.(id := 1, email := "b@x");
    var users := [a, b];
    var claims := Claims(0, 0, ADMIN);
    assert FindLive(users, 0, 0) == Some(0);
    assert LiveAdmin(users[1], 0);
    assert LiveAdmins(users, 0) == 2;
    assert DeleteRouteAsWritten(users, claims, claims.userId, 5).Ok?;
  }

  /** The route with the requester taken from the `userId` claim: self-deletion is refused and every other id behaves as before. */
  function DeleteRoute(users: seq<User>, claims: Claims, id: Id, now: Time): (r: Result<(seq<User>, User), UserError>)
    ensures id == claims.userId ==> r == Err(SelfDelete)
    ensures id != claims.userId ==> r == DeleteRouteAsWritten(users, claims, id, now)
  {
    DeletedUser(users, claims.tenantId, id, Some(claims.userId), now)
  }
}
