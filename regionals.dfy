/**
 * `RegionalService` (backend/src/application/services/regional.service.ts):
 * the regional administrations a tenant's users and events belong to. Names
 * are stored upper-cased; a regional is deleted for good, and only while no
 * user and no event points at it.
 */
module Regionals {
  import opened Wrappers
  import opened Store
  import opened Text

  datatype RegionalError =
    | StillReferenced
    /** Prisma's `P2025`: `update` or `delete` found no row with that id. */
    | RecordMissing

  function Message(e: RegionalError): string
    requires e.StillReferenced?
  {
    "Não é possível excluir regional com usuários ou eventos vinculados."
  }

  // ---------------------------------------------------------------- queries

  /** `findById`: the tenant's regional with that id. */
  function FindRegional(rs: seq<Regional>, tenant: Id, id: Id): (r: Option<nat>)
    ensures r.Some? ==> r.value < |rs| && rs[r.value].id == id && rs[r.value].tenantId == tenant
    ensures r.None? ==> forall j | 0 <= j < |rs| :: !(rs[j].id == id && rs[j].tenantId == tenant)
  {
    FirstWhere(rs, (g: Regional) => g.id == id && g.tenantId == tenant)
  }

  /** The row `update` and `delete` address with `where: { id }`, in whatever tenant it is. */
  function FindAnywhere(rs: seq<Regional>, id: Id): (r: Option<nat>)
    ensures r.Some? ==> r.value < |rs| && rs[r.value].id == id
    ensures r.None? ==> forall j | 0 <= j < |rs| :: rs[j].id != id
  {
    FirstWhere(rs, (g: Regional) => g.id == id)
  }

  /** `list`: the tenant's regionals (the ordering by `nome` is not modelled). */
  function ListRegionais(rs: seq<Regional>, tenant: Id): (r: seq<Regional>)
    ensures forall x :: x in r <==> x in rs && x.tenantId == tenant
  {
    Where(rs, (g: Regional) => g.tenantId == tenant)
  }

  /** Every id names one row and was drawn from the counter. */
  predicate RegionaisValid(rs: seq<Regional>, nextId: nat)
  {
    (forall j | 0 <= j < |rs| :: rs[j].id < nextId) &&
    (forall i, j | 0 <= i < j < |rs| :: rs[i].id != rs[j].id)
  }

  /** A name column as `toUpperCase` leaves it: no lower-case letter. */
  predicate Upper(s: string)
  {
    forall i | 0 <= i < |s| :: !IsLowerLetter(s[i])
  }

  /** Every stored name and sector is upper-case, as `create` and `update` write them. */
  predicate NamesUpper(rs: seq<Regional>)
  {
    forall j | 0 <= j < |rs| :: Upper(rs[j].nome) && (rs[j].setor.Some? ==> Upper(rs[j].setor.value))
  }

  function UpperOpt(s: Option<string>): (r: Option<string>)
    ensures r.Some? <==> s.Some?
  {
    if s.Some? then Some(ToUpper(s.value)) else None
  }

  // ---------------------------------------------------------------- create

  /** The row `create` stores; `ativo` takes the column's default, true. */
  function NewRegional(nome: string, setor: Option<string>, tenant: Id, id: Id): Regional
  {
    Regional(id, tenant, ToUpper(nome), UpperOpt(setor), true)
  }

  /**
   * The stored name and sector are the given ones upper-cased: no lower-case
   * letter is left, every other character and the length are kept, and
   * upper-casing them again changes nothing.
   */
  lemma NewRegionalSpec(nome: string, setor: Option<string>, tenant: Id, id: Id)
    ensures var g := NewRegional(nome, setor, tenant, id);
      g.tenantId == tenant && g.id == id && |g.nome| == |nome| && Upper(g.nome) && ToUpper(g.nome) == g.nome &&
      (forall i | 0 <= i < |nome| && !IsLowerLetter(nome[i]) :: g.nome[i] == nome[i]) &&
      (g.setor.Some? <==> setor.Some?) && (g.setor.Some? ==> Upper(g.setor.value) && |g.setor.value| == |setor.value|)
  {
    ToUpperIdempotent(nome);
    forall i | 0 <= i < |nome| && !IsLowerLetter(nome[i]) ensures ToUpper(nome)[i] == nome[i] {
      UpperCharSpec(nome[i]);
    }
    if setor.Some? {
      ToUpperIdempotent(setor.value);
    }
  }

  method CreateRegional(db: Database, nome: string, setor: Option<string>, tenant: Id) returns (r: Regional)
    modifies db`regionais, db`nextId
    ensures r == NewRegional(nome, setor, tenant, old(db.nextId))
    ensures db.regionais == old(db.regionais) + [r] && db.nextId == old(db.nextId) + 1
  {
    r := NewRegional(nome, setor, tenant, db.nextId);
    db.regionais := db.regionais + [r];
    db.nextId := db.nextId + 1;
  }

  /** A created regional keeps the ids unique and the names upper-case. */
  lemma CreatedRegionalKeepsValid(rs: seq<Regional>, nextId: nat, nome: string, setor: Option<string>, tenant: Id)
    requires RegionaisValid(rs, nextId) && NamesUpper(rs)
    ensures var t := rs + [NewRegional(nome, setor, tenant, nextId)];
      RegionaisValid(t, nextId + 1) && NamesUpper(t)
  {
    NewRegionalSpec(nome, setor, tenant, nextId);
  }

  // ---------------------------------------------------------------- update

  datatype RegionalChanges = RegionalChanges(nome: Option<string>, setor: Option<string>, ativo: Option<bool>)

  /** The supplied fields, the names upper-cased; an absent field is left as it is. */
  function Changed(g: Regional, c: RegionalChanges): Regional
  {
    g.(nome := if c.nome.Some? then ToUpper(c.nome.value) else g.nome,
       setor := if c.setor.Some? then UpperOpt(c.setor) else g.setor,
       ativo := if c.ativo.Some? then c.ativo.value else g.ativo)
  }

  /**
   * `update` as written: the row with that id, in any tenant; the tenant the
   * caller passes is not consulted.
   */
  function UpdatedRegional(rs: seq<Regional>, id: Id, c: RegionalChanges): Result<(seq<Regional>, Regional), RegionalError>
  {
    var k := FindAnywhere(rs, id);
    if k.None? then Err(RecordMissing)
    else
      var g := Changed(rs[k.value], c);
      Ok((rs[k.value := g], g))
  }

  /**
   * `update` fails only when no row has the id; otherwise it rewrites that
   * row alone, keeping its id and tenant, writing each supplied name
   * upper-cased, keeping every absent field, and so keeping every stored name
   * upper-case.
   */
  lemma UpdatedRegionalSpec(rs: seq<Regional>, id: Id, c: RegionalChanges)
    ensures UpdatedRegional(rs, id, c).Err? <==> forall j | 0 <= j < |rs| :: rs[j].id != id
    ensures var r := UpdatedRegional(rs, id, c);
      r.Ok? ==>
        var k := FindAnywhere(rs, id).value;
        var g := r.value.1;
        |r.value.0| == |rs| && r.value.0[k] == g && g.id == id && g.tenantId == rs[k].tenantId &&
        (forall j | 0 <= j < |rs| && j != k :: r.value.0[j] == rs[j]) &&
        (c.nome.None? ==> g.nome == rs[k].nome) && (c.setor.None? ==> g.setor == rs[k].setor) &&
        (c.ativo.None? ==> g.ativo == rs[k].ativo) && (c.ativo.Some? ==> g.ativo == c.ativo.value) &&
        (c.nome.Some? ==> |g.nome| == |c.nome.value| && Upper(g.nome))
    ensures var r := UpdatedRegional(rs, id, c);
      r.Ok? && NamesUpper(rs) ==> NamesUpper(r.value.0)
  {
    var r := UpdatedRegional(rs, id, c);
    if r.Ok? {
      var k := FindAnywhere(rs, id).value;
      if c.nome.Some? {
        ToUpperIdempotent(c.nome.value);
      }
      if c.setor.Some? {
        ToUpperIdempotent(c.setor.value);
      }
    }
  }

  /** `update` (the tenant argument is unused, as in the service). */
  method UpdateRegional(db: Database, id: Id, c: RegionalChanges, tenant: Id) returns (r: Result<Regional, RegionalError>)
    modifies db`regionais
    ensures var u := UpdatedRegional(old(db.regionais), id, c);
      (u.Err? ==> r == Err(u.error) && db.regionais == old(db.regionais)) &&
      (u.Ok? ==> r == Ok(u.value.1) && db.regionais == u.value.0)
  {
    var k := FindAnywhere(db.regionais, id);
    if k.None? {
      return Err(RecordMissing);
    }
    var g := Changed(db.regionais[k.value], c);
    db.regionais := db.regionais[k.value := g];
    r := Ok(g);
  }

  // ---------------------------------------------------------------- delete

  /** Users pointing at the regional, in every tenant, live or removed. */
  function UsersOf(users: seq<User>, id: Id): nat
  {
    CountWhere(users, (u: User) => u.regionalId == Some(id))
  }

  /** Events pointing at the regional, in every tenant, live or removed. */
  function EventsOf(eventos: seq<Evento>, id: Id): nat
  {
    CountWhere(eventos, (e: Evento) => e.regionalId == Some(id))
  }

  /** `delete` as written: the reference guard over all tenants, then the row with that id, in any tenant, is removed. */
  function DeletedRegional(rs: seq<Regional>, users: seq<User>, eventos: seq<Evento>, id: Id): Result<seq<Regional>, RegionalError>
  {
    if UsersOf(users, id) > 0 || EventsOf(eventos, id) > 0 then Err(StillReferenced)
    else
      var k := FindAnywhere(rs, id);
      if k.None? then Err(RecordMissing)
      else Ok(rs[..k.value] + rs[k.value + 1..])
  }

  /** Every user's and every event's regional is a stored row. */
  predicate ReferencesHeld(rs: seq<Regional>, users: seq<User>, eventos: seq<Evento>)
  {
    (forall j | 0 <= j < |users| && users[j].regionalId.Some? :: FindAnywhere(rs, users[j].regionalId.value).Some?) &&
    (forall j | 0 <= j < |eventos| && eventos[j].regionalId.Some? :: FindAnywhere(rs, eventos[j].regionalId.value).Some?)
  }

  /** `delete` refuses exactly while a user or an event, of any tenant, live or removed, points at the regional. */
  lemma DeleteGuard(rs: seq<Regional>, users: seq<User>, eventos: seq<Evento>, id: Id)
    ensures DeletedRegional(rs, users, eventos, id) == Err(StillReferenced) <==>
      (exists j | 0 <= j < |users| :: users[j].regionalId == Some(id)) ||
      (exists j | 0 <= j < |eventos| :: eventos[j].regionalId == Some(id))
  {
    if UsersOf(users, id) > 0 {
      var j :| 0 <= j < |users| && users[j].regionalId == Some(id);
    }
    if EventsOf(eventos, id) > 0 {
      var j :| 0 <= j < |eventos| && eventos[j].regionalId == Some(id);
    }
  }

  /** Removing position `k` keeps the rows before it in place and shifts the rest down by one. */
  lemma RemoveAt<T>(s: seq<T>, k: nat)
    requires k < |s|
    ensures var t := s[..k] + s[k + 1..];
      |t| == |s| - 1 && (forall j | 0 <= j < k :: t[j] == s[j]) && (forall j | k <= j < |t| :: t[j] == s[j + 1])
  {
  }

  /**
   * After `delete`, the one row with that id is gone, every other row stays,
   * and nothing else is stored.
   */
  lemma DeletedRegionalRows(rs: seq<Regional>, nextId: nat, users: seq<User>, eventos: seq<Evento>, id: Id)
    requires RegionaisValid(rs, nextId)
    ensures var r := DeletedRegional(rs, users, eventos, id);
      r.Ok? ==>
        |r.value| == |rs| - 1 && FindAnywhere(r.value, id).None? &&
        (forall g | g in rs && g.id != id :: g in r.value) && (forall g | g in r.value :: g in rs) &&
        RegionaisValid(r.value, nextId)
  {
    var r := DeletedRegional(rs, users, eventos, id);
    if r.Ok? {
      var k := FindAnywhere(rs, id).value;
      var t := r.value;
      RemoveAt(rs, k);
      forall g | g in rs && g.id != id ensures g in t {
        var j :| 0 <= j < |rs| && rs[j] == g;
        if j < k {
          assert t[j] == g;
        } else {
          assert t[j - 1] == g;
        }
      }
    }
  }

  /** A `delete` that goes through leaves no user's and no event's regional dangling. */
  lemma DeleteKeepsReferences(rs: seq<Regional>, nextId: nat, users: seq<User>, eventos: seq<Evento>, id: Id)
    requires RegionaisValid(rs, nextId) && ReferencesHeld(rs, users, eventos)
    ensures var r := DeletedRegional(rs, users, eventos, id);
      r.Ok? ==> ReferencesHeld(r.value, users, eventos)
  {
    var r := DeletedRegional(rs, users, eventos, id);
    if r.Ok? {
      var t := r.value;
      DeletedRegionalRows(rs, nextId, users, eventos, id);
      forall j | 0 <= j < |users| && users[j].regionalId.Some?
        ensures FindAnywhere(t, users[j].regionalId.value).Some?
      {
        var x := users[j].regionalId.value;
        var i := FindAnywhere(rs, x).value;
        assert rs[i] in t;
      }
      forall j | 0 <= j < |eventos| && eventos[j].regionalId.Some?
        ensures FindAnywhere(t, eventos[j].regionalId.value).Some?
      {
        var x := eventos[j].regionalId.value;
        var i := FindAnywhere(rs, x).value;
        assert rs[i] in t;
      }
    }
  }

  /** `delete` (the tenant argument is unused, as in the service). */
  method DeleteRegional(db: Database, id: Id, tenant: Id) returns (r: Result<(), RegionalError>)
    modifies db`regionais
    ensures var u := DeletedRegional(old(db.regionais), db.users, db.eventos, id);
      (u.Err? ==> r == Err(u.error) && db.regionais == old(db.regionais)) &&
      (u.Ok? ==> r == Ok(()) && db.regionais == u.value)
  {
    var usersCount := UsersOf(db.users, id);
    var eventsCount := EventsOf(db.eventos, id);
    if usersCount > 0 || eventsCount > 0 {
      return Err(StillReferenced);
    }
    var k := FindAnywhere(db.regionais, id);
    if k.None? {
      return Err(RecordMissing);
    }
    db.regionais := db.regionais[..k.value] + db.regionais[k.value + 1..];
    r := Ok(());
  }

  // ---------------------------------------------------------------- tenant scope

  /** The rows of tenants other than `tenant`. */
  function Others(rs: seq<Regional>, tenant: Id): seq<Regional>
  {
    Where(rs, (g: Regional) => g.tenantId != tenant)
  }

  /**
   * As written, an administrator of tenant 1 renames and deletes a regional
   * of tenant 0 by its id: `findById` does not see the row from tenant 1, yet
   * `update` and `delete` change it.
   */
  lemma CrossTenantWriteAsWritten()
    ensures exists rs: seq<Regional>, tenant: Id, id: Id ::
      FindRegional(rs, tenant, id).None? &&
      UpdatedRegional(rs, id, RegionalChanges(Some("x"), None, None)).Ok? &&
      Others(UpdatedRegional(rs, id, RegionalChanges(Some("x"), None, None)).value.0, tenant) != Others(rs, tenant) &&
      DeletedRegional(rs, [], [], id) == Ok([])
  {
    var rs := [Regional(7, 0, "NORTE", None, true)];
    var c := RegionalChanges(Some("x"), None, None);
    assert FindRegional(rs, 1, 7).None?;
    var t := UpdatedRegional(rs, 7, c).value.0;
    assert t[0].nome == "X";
    assert Others(rs, 1) == rs;
    assert Others(t, 1) == t;
    assert UsersOf([], 7) == 0 && EventsOf([], 7) == 0;
    assert FindAnywhere(rs, 7) == Some(0);
    assert rs[..0] + rs[1..] == [];
  }

  /** `update` scoped to the caller's tenant, as `findById` is: another tenant's row is `RecordMissing`. */
  function UpdatedRegionalInTenant(rs: seq<Regional>, tenant: Id, id: Id, c: RegionalChanges): Result<(seq<Regional>, Regional), RegionalError>
  {
    var k := FindRegional(rs, tenant, id);
    if k.None? then Err(RecordMissing)
    else
      var g := Changed(rs[k.value], c);
      Ok((rs[k.value := g], g))
  }

  /** `delete` scoped to the caller's tenant; the reference guard is kept as it is. */
  function DeletedRegionalInTenant(rs: seq<Regional>, users: seq<User>, eventos: seq<Evento>, tenant: Id, id: Id): Result<seq<Regional>, RegionalError>
  {
    if UsersOf(users, id) > 0 || EventsOf(eventos, id) > 0 then Err(StillReferenced)
    else
      var k := FindRegional(rs, tenant, id);
      if k.None? then Err(RecordMissing)
      else Ok(rs[..k.value] + rs[k.value + 1..])
  }

  /** Scoped to the tenant, `update` leaves every other tenant's rows exactly as they were. */
  lemma UpdateInTenantIsolated(rs: seq<Regional>, tenant: Id, id: Id, c: RegionalChanges)
    ensures var r := UpdatedRegionalInTenant(rs, tenant, id, c);
      r.Ok? ==> Others(r.value.0, tenant) == Others(rs, tenant)
  {
    var k := FindRegional(rs, tenant, id);
    if k.Some? {
      OthersUpdate(rs, k.value, Changed(rs[k.value], c), tenant);
    }
  }

  /** Rewriting a row of `tenant` as a row of `tenant` leaves the other tenants' rows as they were. */
  lemma {:induction false} OthersUpdate(rs: seq<Regional>, i: nat, g: Regional, tenant: Id)
    requires i < |rs| && rs[i].tenantId == tenant && g.tenantId == tenant
    ensures Others(rs[i := g], tenant) == Others(rs, tenant)
    decreases |rs|
  {
    if i == 0 {
      assert rs[i := g][1..] == rs[1..];
    } else {
      assert rs[i := g][1..] == rs[1..][i - 1 := g];
      OthersUpdate(rs[1..], i - 1, g, tenant);
    }
  }

  /** Scoped to the tenant, `delete` leaves every other tenant's rows exactly as they were. */
  lemma DeleteInTenantIsolated(rs: seq<Regional>, users: seq<User>, eventos: seq<Evento>, tenant: Id, id: Id)
    ensures var r := DeletedRegionalInTenant(rs, users, eventos, tenant, id);
      r.Ok? ==> Others(r.value, tenant) == Others(rs, tenant)
  {
    var k := FindRegional(rs, tenant, id);
    if k.Some? {
      var i := k.value;
      var before, after := rs[..i], rs[i + 1..];
      assert rs == before + [rs[i]] + after;
      OthersRemove(before, rs[i], after, tenant);
    }
  }

  /** On a regional of the caller's own tenant, the scoped `update` and `delete` do what the code as written does. */
  lemma InTenantAgrees(rs: seq<Regional>, nextId: nat, users: seq<User>, eventos: seq<Evento>, tenant: Id, id: Id, c: RegionalChanges)
    requires RegionaisValid(rs, nextId) && FindRegional(rs, tenant, id).Some?
    ensures UpdatedRegionalInTenant(rs, tenant, id, c) == UpdatedRegional(rs, id, c)
    ensures DeletedRegionalInTenant(rs, users, eventos, tenant, id) == DeletedRegional(rs, users, eventos, id)
  {
    FirstWhereAt(rs, (x: Regional) => x.id == id, FindRegional(rs, tenant, id).value);
  }

  /** Removing a row of `tenant` leaves the other tenants' rows as they were. */
  lemma {:induction false} OthersRemove(a: seq<Regional>, x: Regional, b: seq<Regional>, tenant: Id)
    requires x.tenantId == tenant
    ensures Others(a + b, tenant) == Others(a + [x] + b, tenant)
    decreases |a|
  {
    if a == [] {
      assert a + b == b && (a + [x] + b)[1..] == b;
    } else {
      assert (a + b)[1..] == a[1..] + b;
      assert (a + [x] + b)[1..] == a[1..] + [x] + b;
      OthersRemove(a[1..], x, b, tenant);
    }
  }
}
