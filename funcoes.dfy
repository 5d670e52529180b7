/**
 * `AdminFuncaoController` (backend/src/interfaces/http/controllers/admin/funcao.controller.ts):
 * the ministry functions of a tenant, kept in the `funcaoMinisterio` table by
 * the controller itself. A function is keyed by its name trimmed, upper-cased
 * and with whitespace runs collapsed.
 */
module Funcoes {
  import opened Wrappers
  import opened Store
  import opened ErrorMapping
  import opened Catalog

  /** What the controller sends: the row with 201, an empty 204, a 404 message, or what the global handler makes of an error. */
  datatype Reply =
    | Created(row: Funcao)
    | NoContent
    | NotFound(message: string)
    | Handled(error: ErrorReply)

  function Status(reply: Reply): int
  {
    match reply
    case Created(_) => 201
    case NoContent => 204
    case NotFound(_) => 404
    case Handled(e) => e.statusCode
  }

  function NewRow(id: Id, tenant: Id, nome: string): Funcao
  {
    Row(id, tenant, nome, (), None)
  }

  /**
   * Prisma's `upsert` on (tenantId, nome) with `update: { deletedAt: null }`:
   * the row holding the key, live or soft-deleted, gets `deletedAt` cleared;
   * otherwise `row` is created.
   */
  function Upsert(t: seq<Funcao>, tenant: Id, nome: string, row: Funcao): (seq<Funcao>, nat)
  {
    match FindByKey(t, tenant, nome)
    case Some(k) => (t[k := t[k].(deletedAt := None)], k)
    case None => (t + [row], |t|)
  }

  /**
   * The upsert is the find-or-create-or-restore of the other reference
   * tables: clearing `deletedAt` of a live row leaves it as it was.
   */
  lemma UpsertIsResolve(t: seq<Funcao>, tenant: Id, nome: string, row: Funcao)
    requires row.tenantId == tenant && row.nome == nome && Live(row)
    ensures Upsert(t, tenant, nome, row) == Resolve(t, tenant, nome, row)
  {
    match FindByKey(t, tenant, nome)
    case Some(k) =>
      if Live(t[k]) {
        assert t[k].(deletedAt := None) == t[k];
        assert t[k := t[k]] == t;
      }
    case None =>
  }

  /**
   * `create`: the body must hold a `nome` of at least two characters (a zod
   * error otherwise, which the global handler answers); the normalised name is
   * upserted and the row sent with 201.
   */
  method CreateFuncao(db: Database, nome: string, tenant: Id, production: bool) returns (reply: Reply)
    requires TableValid(db.funcoes, db.nextId)
    modifies db`funcoes, db`nextId
    ensures TableValid(db.funcoes, db.nextId)
    ensures |nome| < 2 ==>
      reply == Handled(GlobalErrorHandler(ZodFailure(["nome"]), production)) && Status(reply) == 400 &&
      db.funcoes == old(db.funcoes) && db.nextId == old(db.nextId)
    ensures |nome| >= 2 ==>
      var key := NormalizeName(nome);
      var (t, i) := Resolve(old(db.funcoes), tenant, key, NewRow(old(db.nextId), tenant, key));
      reply == Created(t[i]) && Status(reply) == 201 && db.funcoes == t &&
      db.nextId == (if |t| > |old(db.funcoes)| then old(db.nextId) + 1 else old(db.nextId))
  {
    if |nome| < 2 {
      return Handled(GlobalErrorHandler(ZodFailure(["nome"]), production));
    }
    var key := NormalizeName(nome);
    var row := NewRow(db.nextId, tenant, key);
    UpsertIsResolve(db.funcoes, tenant, key, row);
    ResolveKeepsValid(db.funcoes, db.nextId, tenant, key, row);
    var (t, i) := Upsert(db.funcoes, tenant, key, row);
    if |t| > |db.funcoes| {
      db.nextId := db.nextId + 1;
    } else {
      assert TableValid(t, db.nextId) by {
        assert forall j | 0 <= j < |t| :: t[j].id == db.funcoes[j].id;
      }
    }
    db.funcoes := t;
    reply := Created(t[i]);
  }

  /**
   * `delete`: a row that is not live in the tenant is a 404 'Not found';
   * otherwise it is soft-deleted and the reply is an empty 204.
   */
  method DeleteFuncao(db: Database, id: Id, tenant: Id, now: Time) returns (reply: Reply)
    modifies db`funcoes
    ensures FindById(old(db.funcoes), tenant, id).None? <==> reply == NotFound("Not found")
    ensures FindById(old(db.funcoes), tenant, id).None? ==> db.funcoes == old(db.funcoes)
    ensures FindById(old(db.funcoes), tenant, id).Some? ==> reply == NoContent && db.funcoes == SoftDelete(old(db.funcoes), tenant, id, now).0
  {
    var record := FindById(db.funcoes, tenant, id);
    if record.None? {
      return NotFound("Not found");
    }
    db.funcoes := db.funcoes[record.value := db.funcoes[record.value].(deletedAt := Some(now))];
    reply := NoContent;
  }

  /** `list`: the tenant's live functions projected to id and name (the ordering by `nome` is not modelled). */
  function ListFuncoes(t: seq<Funcao>, tenant: Id): (r: seq<(Id, string)>)
    ensures |r| == |List(t, tenant)|
    ensures forall j | 0 <= j < |r| :: exists x | x in t :: x.tenantId == tenant && Live(x) && r[j] == (x.id, x.nome)
    ensures forall x | x in List(t, tenant) :: (x.id, x.nome) in r
  {
    var live := List(t, tenant);
    var r := seq(|live|, j requires 0 <= j < |live| => (live[j].id, live[j].nome));
    assert forall j | 0 <= j < |live| :: r[j] == (live[j].id, live[j].nome);
    r
  }
}
