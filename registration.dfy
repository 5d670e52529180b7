/**
 * `PresencaService` (backend/src/application/services/presenca.service.ts):
 * the attendance registration, one transaction that picks the event, checks
 * it, resolves the city and the instrument and inserts one attendance record;
 * and `getActiveEvent`, the event the registration page shows.
 */
module Registration {
  import opened Wrappers
  import opened Store
  import opened Text
  import opened ErrorMapping
  import opened Normalization
  import opened Catalog

  /** The errors `create` raises, each with its message; `InsertFailed` is an insert the database refused. */
  datatype RegError =
    | NoActiveEvent
    | EventNotFound
    | EventRemoved
    | EventInactive
    | EventMisconfigured
    | NotYetOpen(start: Time, startText: string)
    | WindowClosed
    | SummonsRequired
    | CityRequired
    | InvalidCity
    | InvalidInstrument
    | InsertFailed(failure: Failure)

  function Message(e: RegError): string
    requires !e.InsertFailed?
  {
    match e
    case NoActiveEvent => "Nenhum evento ativo encontrado para registro no momento."
    case EventNotFound => "Evento Musical não encontrado."
    case EventRemoved => "Evento Musical foi removido."
    case EventInactive => "Evento Musical está inativo."
    case EventMisconfigured => "Configuração de horário do evento inválida."
    case NotYetOpen(_, text) => "O registro de presença ainda não foi aberto. Inicia em " + text + "."
    case WindowClosed => "O período de registro para este evento já foi encerrado."
    case SummonsRequired => "Este evento exige convocação prévia e seu registro não foi localizado."
    case CityRequired => "Cidade is required (ID or Name)"
    case InvalidCity => "Cidade selecionada inválida."
    case InvalidInstrument => "Instrumento selecionado inválido."
  }

  /** The error as it is thrown: `new Error(message)`, or the database's own error. */
  function AsFailure(e: RegError): Failure
  {
    if e.InsertFailed? then e.failure else Raise(Message(e))
  }

  // ---------------------------------------------------------------- event choice

  /** `a` sorts no later than `b` under `orderBy: { dataInicio: 'desc' }`, a null date sorting last. */
  predicate AtLeast(a: Option<Time>, b: Option<Time>)
  {
    b.None? || (a.Some? && a.value >= b.value)
  }

  /**
   * `findFirst` with `orderBy: { dataInicio: 'desc' }`: a matching event whose
   * `dataInicio` no other matching event exceeds (among ties, the first in table order).
   */
  function LatestWhere(s: seq<Evento>, p: Evento -> bool): (r: Option<nat>)
    ensures r.Some? ==> r.value < |s| && p(s[r.value])
    ensures r.Some? ==> forall j | 0 <= j < |s| && p(s[j]) :: AtLeast(s[r.value].dataInicio, s[j].dataInicio)
    ensures r.None? <==> forall j | 0 <= j < |s| :: !p(s[j])
    decreases |s|
  {
    if s == [] then None
    else
      var rest := LatestWhere(s[1..], p);
      if !p(s[0]) then (if rest.None? then None else Some(rest.value + 1))
      else if rest.None? || AtLeast(s[0].dataInicio, s[rest.value + 1].dataInicio) then Some(0)
      else Some(rest.value + 1)
  }

  /** The filter of `create`'s fallback: active, not deleted, and `dataInicio <= now <= dataFim` with both set. */
  function OpenForCreate(tenant: Id, now: Time): Evento -> bool
  {
    (e: Evento) => e.tenantId == tenant && e.ativo && e.deletedAt.None? &&
      e.dataInicio.Some? && e.dataInicio.value <= now && e.dataFim.Some? && e.dataFim.value >= now
  }

  /** The event `user.ensaioRegionalId` names, when the user row exists (soft-deleted or not) and has one. */
  function LinkedEventId(users: seq<User>, userId: Id): Option<Id>
  {
    var u := FirstWhere(users, (u: User) => u.id == userId);
    if u.None? then None else users[u.value].ensaioRegionalId
  }

  function IdInTenant(id: Id, tenant: Id): Evento -> bool
  {
    (e: Evento) => e.id == id && e.tenantId == tenant
  }

  /** Neither pair of window columns is complete. */
  predicate Misconfigured(e: Evento)
  {
    (e.dataInicio.None? || e.dataFim.None?) && (e.dataHoraInicio.None? || e.dataHoraFim.None?)
  }

  /** `dataInicio || dataHoraInicio`. */
  function StartOf(e: Evento): Option<Time>
  {
    if e.dataInicio.Some? then e.dataInicio else e.dataHoraInicio
  }

  /** `dataFim || dataHoraFim`. */
  function EndOf(e: Evento): Option<Time>
  {
    if e.dataFim.Some? then e.dataFim else e.dataHoraFim
  }

  /**
   * Unless both pairs are incomplete, both ends of the window are known; a
   * start kept only in the new pair and an end only in the legacy one is still
   * refused as misconfigured, though both ends are known.
   */
  lemma WindowKnown(e: Evento)
    ensures !Misconfigured(e) ==> StartOf(e).Some? && EndOf(e).Some?
    ensures e.dataInicio.Some? && e.dataFim.None? && e.dataHoraInicio.None? && e.dataHoraFim.Some? ==>
      Misconfigured(e) && StartOf(e).Some? && EndOf(e).Some?
  {
  }

  /** The `eventoUsuario` row for (event, user) exists and says `convocado`. */
  predicate Summoned(convocacoes: seq<Convocacao>, eventId: Id, userId: Id)
  {
    var c := FirstWhere(convocacoes, (c: Convocacao) => c.ensaioRegionalId == eventId && c.userId == userId);
    c.Some? && convocacoes[c.value].convocado
  }

  /**
   * The checks `create` makes before it writes anything, in order: the event is
   * the user's linked one, or else the tenant's open one; it must exist in the
   * tenant, not be removed, be active, have a window, and `now` must lie inside
   * that window, both ends included; a summons-only event needs the summons.
   * `startText` is how the start is written in the message (`toLocaleString('pt-BR')`).
   */
  function EventGate(users: seq<User>, eventos: seq<Evento>, convocacoes: seq<Convocacao>, userId: Id, tenant: Id, now: Time,
                     startText: Time -> string): (r: Result<Evento, RegError>)
    ensures r.Ok? ==> r.value in eventos && r.value.tenantId == tenant && r.value.deletedAt.None? && r.value.ativo
    ensures r.Ok? ==> StartOf(r.value).Some? && EndOf(r.value).Some? && StartOf(r.value).value <= now <= EndOf(r.value).value
    ensures r.Ok? && r.value.modoConvocacao ==> Summoned(convocacoes, r.value.id, userId)
    ensures LinkedEventId(users, userId).Some? && r.Ok? ==> r.value.id == LinkedEventId(users, userId).value
    ensures r == Err(NoActiveEvent) <==>
      LinkedEventId(users, userId).None? && forall j | 0 <= j < |eventos| :: !OpenForCreate(tenant, now)(eventos[j])
    ensures LinkedEventId(users, userId).None? && r.Ok? ==>
      var k := LatestWhere(eventos, OpenForCreate(tenant, now)).value;
      r.value.id == eventos[k].id
  {
    var linked := LinkedEventId(users, userId);
    var open := LatestWhere(eventos, OpenForCreate(tenant, now));
    if linked.None? && open.None? then Err(NoActiveEvent)
    else
      var id := if linked.Some? then linked.value else eventos[open.value].id;
      match FirstWhere(eventos, IdInTenant(id, tenant))
      case None => Err(EventNotFound)
      case Some(k) =>
        var e := eventos[k];
        if e.deletedAt.Some? then Err(EventRemoved)
        else if !e.ativo then Err(EventInactive)
        else if Misconfigured(e) then Err(EventMisconfigured)
        else if now < StartOf(e).value then Err(NotYetOpen(StartOf(e).value, startText(StartOf(e).value)))
        else if now > EndOf(e).value then Err(WindowClosed)
        else if e.modoConvocacao && !Summoned(convocacoes, e.id, userId) then Err(SummonsRequired)
        else Ok(e)
  }

  /**
   * The checks fail in their order: an event found in the tenant that is
   * removed is reported as removed whatever else is wrong with it, and so on
   * down the list; the window is checked only for an active, present event.
   */
  lemma GateOrder(users: seq<User>, eventos: seq<Evento>, convocacoes: seq<Convocacao>, userId: Id, tenant: Id, now: Time,
                  startText: Time -> string, k: nat)
    requires k < |eventos| && FirstWhere(eventos, IdInTenant(eventos[k].id, tenant)) == Some(k)
    requires LinkedEventId(users, userId) == Some(eventos[k].id)
    ensures var r := EventGate(users, eventos, convocacoes, userId, tenant, now, startText);
      var e := eventos[k];
      (e.deletedAt.Some? ==> r == Err(EventRemoved)) &&
      (e.deletedAt.None? && !e.ativo ==> r == Err(EventInactive)) &&
      (e.deletedAt.None? && e.ativo && Misconfigured(e) ==> r == Err(EventMisconfigured)) &&
      (e.deletedAt.None? && e.ativo && !Misconfigured(e) && now < StartOf(e).value ==> r.Err? && r.error.NotYetOpen?) &&
      (e.deletedAt.None? && e.ativo && !Misconfigured(e) && StartOf(e).value <= now && now > EndOf(e).value ==> r == Err(WindowClosed))
  {
  }

  /** A linked event is never replaced by the open one, even when it is removed, inactive or closed. */
  lemma LinkedHasNoFallback(users: seq<User>, eventos: seq<Evento>, convocacoes: seq<Convocacao>, userId: Id, tenant: Id, now: Time,
                            startText: Time -> string)
    requires LinkedEventId(users, userId).Some?
    requires forall j | 0 <= j < |eventos| :: eventos[j].id == LinkedEventId(users, userId).value ==> !eventos[j].ativo
    ensures EventGate(users, eventos, convocacoes, userId, tenant, now, startText).Err?
  {
  }

  // ---------------------------------------------------------------- city and instrument

  /** What resolving the city or the instrument gives: the table, the key counter and the id, or the error. */
  datatype Resolution<X> =
    | Resolved(table: seq<Row<X>>, nextId: nat, id: Option<Id>)
    | Failed(error: RegError)

  /** The city row the registration inserts has only `nome` and the tenant; the name columns stay null. */
  const NoCityNames := CityNames(None, None, None)

  /**
   * `findUnique` on (tenantId, nome) inside the transaction: a live row is
   * reused, a soft-deleted one restored, and a missing one inserted with the
   * next id, with no retry when the insert fails (`fails`).
   */
  function ByKey<X>(t: seq<Row<X>>, nextId: nat, tenant: Id, key: string, extra: X, fails: Option<Failure>): (r: Resolution<X>)
    ensures r.Resolved? ==> r.id.Some? && r.nextId >= nextId
  {
    match FindByKey(t, tenant, key)
    case Some(k) => Resolved(if Live(t[k]) then t else Restore(t, k), nextId, Some(t[k].id))
    case None =>
      if fails.Some? then Failed(InsertFailed(fails.value))
      else Resolved(t + [Row(nextId, tenant, key, extra, None)], nextId + 1, Some(nextId))
  }

  /**
   * The lookup is the catalog's find-or-restore-or-create, with the row it
   * inserts; only a refused insert fails; the id it gives is live in the tenant;
   * and the unique key and the primary keys survive it.
   */
  lemma ByKeySpec<X>(t: seq<Row<X>>, nextId: nat, tenant: Id, key: string, extra: X, fails: Option<Failure>)
    ensures var r := ByKey(t, nextId, tenant, key, extra, fails);
      var (u, i) := Resolve(t, tenant, key, Row(nextId, tenant, key, extra, None));
      if FindByKey(t, tenant, key).None? && fails.Some? then r == Failed(InsertFailed(fails.value))
      else r.Resolved? && r.table == u && r.id == Some(u[i].id) && r.nextId == nextId + |u| - |t|
    ensures var r := ByKey(t, nextId, tenant, key, extra, fails);
      r.Resolved? ==> FindById(r.table, tenant, r.id.value).Some?
    ensures var r := ByKey(t, nextId, tenant, key, extra, fails);
      r.Resolved? && TableValid(t, nextId) ==> TableValid(r.table, r.nextId)
  {
    var row := Row(nextId, tenant, key, extra, None);
    if TableValid(t, nextId) {
      ResolveKeepsValid(t, nextId, tenant, key, row);
      RestoreKeepsValid(t, nextId, tenant, key);
    }
    match FindByKey(t, tenant, key)
    case Some(k) =>
      LiveIdFound(if Live(t[k]) then t else Restore(t, k), tenant, k);
    case None =>
      LiveIdFound(t + [row], tenant, |t|);
  }

  /**
   * The city of the registration: a given id must be a live city of the
   * tenant; otherwise a name, as its key under `normalizeString`, is looked up;
   * with neither the city is required.
   */
  function CityStep(t: seq<Cidade>, nextId: nat, tenant: Id, cidadeId: Option<Id>, key: Option<string>, fails: Option<Failure>)
    : (r: Resolution<CityNames>)
    ensures r.Resolved? ==> r.id.Some? && r.nextId >= nextId
  {
    if cidadeId.Some? then
      if FindById(t, tenant, cidadeId.value).Some? then Resolved(t, nextId, cidadeId) else Failed(InvalidCity)
    else if key.None? then Failed(CityRequired)
    else ByKey(t, nextId, tenant, key.value, NoCityNames, fails)
  }

  /**
   * The instrument of the registration: a given id must be a live instrument of
   * the tenant; otherwise a name, as its key under `normalizeInstrumentName`
   * (`InstrumentKey`), is looked up; with neither there is no instrument.
   */
  function InstrumentStep(t: seq<Instrumento>, nextId: nat, tenant: Id, instrumentoId: Option<Id>, key: Option<string>,
                          fails: Option<Failure>): (r: Resolution<()>)
    ensures r.Resolved? ==> r.nextId >= nextId
  {
    if instrumentoId.Some? then
      if FindById(t, tenant, instrumentoId.value).Some? then Resolved(t, nextId, instrumentoId) else Failed(InvalidInstrument)
    else if key.None? then Resolved(t, nextId, None)
    else ByKey(t, nextId, tenant, key.value, (), fails)
  }

  /**
   * The city step's outcomes: the given id checked, the name required, and the
   * id it gives live in the tenant; the tables stay valid.
   */
  lemma CityStepSpec(t: seq<Cidade>, nextId: nat, tenant: Id, cidadeId: Option<Id>, key: Option<string>, fails: Option<Failure>)
    ensures var r := CityStep(t, nextId, tenant, cidadeId, key, fails);
      r.Resolved? ==> FindById(r.table, tenant, r.id.value).Some?
    ensures var r := CityStep(t, nextId, tenant, cidadeId, key, fails);
      cidadeId.Some? ==>
        if FindById(t, tenant, cidadeId.value).Some? then r == Resolved(t, nextId, cidadeId) else r == Failed(InvalidCity)
    ensures var r := CityStep(t, nextId, tenant, cidadeId, key, fails);
      cidadeId.None? && key.None? ==> r == Failed(CityRequired)
    ensures var r := CityStep(t, nextId, tenant, cidadeId, key, fails);
      cidadeId.None? && key.Some? ==> r == ByKey(t, nextId, tenant, key.value, NoCityNames, fails)
    ensures var r := CityStep(t, nextId, tenant, cidadeId, key, fails);
      r.Resolved? && TableValid(t, nextId) ==> TableValid(r.table, r.nextId)
  {
    if cidadeId.None? && key.Some? {
      ByKeySpec(t, nextId, tenant, key.value, NoCityNames, fails);
    }
  }

  /** The instrument step's outcomes, as the city's, except that without id and name there is no instrument. */
  lemma InstrumentStepSpec(t: seq<Instrumento>, nextId: nat, tenant: Id, instrumentoId: Option<Id>, key: Option<string>,
                           fails: Option<Failure>)
    ensures var r := InstrumentStep(t, nextId, tenant, instrumentoId, key, fails);
      r.Resolved? && r.id.Some? ==> FindById(r.table, tenant, r.id.value).Some?
    ensures var r := InstrumentStep(t, nextId, tenant, instrumentoId, key, fails);
      instrumentoId.Some? ==>
        if FindById(t, tenant, instrumentoId.value).Some? then r == Resolved(t, nextId, instrumentoId) else r == Failed(InvalidInstrument)
    ensures var r := InstrumentStep(t, nextId, tenant, instrumentoId, key, fails);
      instrumentoId.None? && key.None? ==> r == Resolved(t, nextId, None)
    ensures var r := InstrumentStep(t, nextId, tenant, instrumentoId, key, fails);
      instrumentoId.None? && key.Some? ==> r == ByKey(t, nextId, tenant, key.value, (), fails)
    ensures var r := InstrumentStep(t, nextId, tenant, instrumentoId, key, fails);
      r.Resolved? && TableValid(t, nextId) ==> TableValid(r.table, r.nextId)
  {
    if instrumentoId.None? && key.Some? {
      ByKeySpec(t, nextId, tenant, key.value, (), fails);
    }
  }

  /** A live row of the tenant is found by its id. */
  lemma LiveIdFound<X>(t: seq<Row<X>>, tenant: Id, k: nat)
    requires k < |t| && t[k].tenantId == tenant && Live(t[k])
    ensures FindById(t, tenant, t[k].id).Some?
  {
    assert LiveIdIs<X>(tenant, t[k].id)(t[k]);
  }

  /** Restoring the row that holds a key changes no id and no key. */
  lemma RestoreKeepsValid<X>(t: seq<Row<X>>, nextId: nat, tenant: Id, key: string)
    requires TableValid(t, nextId)
    ensures FindByKey(t, tenant, key).Some? ==> TableValid(Restore(t, FindByKey(t, tenant, key).value), nextId)
  {
    if FindByKey(t, tenant, key).Some? {
      var u := Restore(t, FindByKey(t, tenant, key).value);
      assert forall i | 0 <= i < |u| :: u[i].id == t[i].id && u[i].tenantId == t[i].tenantId && u[i].nome == t[i].nome;
    }
  }

  /** A larger key counter keeps a table valid. */
  lemma ValidUpTo<X>(t: seq<Row<X>>, nextId: nat, nextId': nat)
    requires TableValid(t, nextId) && nextId <= nextId'
    ensures TableValid(t, nextId')
  {
  }

  /** The lookup, step by step: find by the unique key, restore or insert. */
  method FindOrCreate<X>(t: seq<Row<X>>, nextId: nat, tenant: Id, key: string, extra: X, fails: Option<Failure>) returns (r: Resolution<X>)
    ensures r == ByKey(t, nextId, tenant, key, extra, fails)
  {
    var existing := FindByKey(t, tenant, key);
    if existing.Some? {
      var rows := t;
      if !Live(t[existing.value]) {
        rows := Restore(t, existing.value);
      }
      return Resolved(rows, nextId, Some(t[existing.value].id));
    }
    if fails.Some? {
      return Failed(InsertFailed(fails.value));
    }
    r := Resolved(t + [Row(nextId, tenant, key, extra, None)], nextId + 1, Some(nextId));
  }

  /** The city half of `create`: the name is looked up only when no id is given, and a given id is then checked. */
  method ResolveCity(t: seq<Cidade>, nextId: nat, tenant: Id, cidadeId: Option<Id>, key: Option<string>, fails: Option<Failure>)
    returns (r: Resolution<CityNames>)
    ensures r == CityStep(t, nextId, tenant, cidadeId, key, fails)
  {
    var cidades, next, id := t, nextId, cidadeId;
    if id.None? && key.Some? {
      var found := FindOrCreate(t, nextId, tenant, key.value, NoCityNames, fails);
      if found.Failed? {
        return found;
      }
      cidades, next, id := found.table, found.nextId, found.id;
    }
    if id.None? {
      return Failed(CityRequired);
    }
    if cidadeId.Some? && FindById(cidades, tenant, id.value).None? {
      return Failed(InvalidCity);
    }
    r := Resolved(cidades, next, id);
  }

  /** The instrument half of `create`. */
  method ResolveInstrument(t: seq<Instrumento>, nextId: nat, tenant: Id, instrumentoId: Option<Id>, key: Option<string>,
                           fails: Option<Failure>) returns (r: Resolution<()>)
    ensures r == InstrumentStep(t, nextId, tenant, instrumentoId, key, fails)
  {
    if instrumentoId.Some? {
      if FindById(t, tenant, instrumentoId.value).None? {
        return Failed(InvalidInstrument);
      }
      return Resolved(t, nextId, instrumentoId);
    } else if key.Some? {
      r := FindOrCreate(t, nextId, tenant, key.value, (), fails);
    } else {
      r := Resolved(t, nextId, None);
    }
  }

  /** The fields of the request the service reads; the user and tenant come from the access token. */
  datatype Request = Request(
    funcaoMinisterio: string, cidadeId: Option<Id>, cidadeNome: Option<string>,
    instrumentoId: Option<Id>, instrumentoNome: Option<string>)

  /**
   * The normalised values `create` stores: the ministry function and the city
   * name under `normalizeString`, the instrument name under
   * `normalizeInstrumentName`; an empty or missing name has no key.
   */
  datatype Keys = Keys(funcao: string, cidade: Option<string>, instrumento: Option<string>)

  function KeysOf(req: Request): Keys
  {
    Keys(
      NormalizeString(req.funcaoMinisterio),
      if Truthy(req.cidadeNome) then Some(NormalizeString(req.cidadeNome.value)) else None,
      if Truthy(req.instrumentoNome) then Some(NormalizeInstrumentName(req.instrumentoNome.value)) else None)
  }

  /** The tables `create` writes. */
  datatype Tables = Tables(cidades: seq<Cidade>, instrumentos: seq<Instrumento>, registros: seq<Registro>, nextId: nat)

  /**
   * What `create` does, as one value: the gate, then the city, then the
   * instrument, then one attendance record with the normalised ministry function
   * and no free-text instrument; the new tables and the record's id, or the first
   * error. `cityFails`/`instrumentFails` are what the database does with the
   * insert of a new city/instrument row (none: it succeeds).
   */
  function Registered(users: seq<User>, eventos: seq<Evento>, convocacoes: seq<Convocacao>, db: Tables, userId: Id, tenant: Id,
                      req: Request, now: Time, startText: Time -> string, cityFails: Option<Failure>, instrumentFails: Option<Failure>)
    : Result<(Tables, Id), RegError>
  {
    var g := EventGate(users, eventos, convocacoes, userId, tenant, now, startText);
    if g.Err? then Err(g.error)
    else Attend(db, g.value.id, userId, tenant, req, KeysOf(req), now, cityFails, instrumentFails)
  }

  /** The writes of `create` once the event is settled: the city, the instrument, the record. */
  function Attend(db: Tables, eventId: Id, userId: Id, tenant: Id, req: Request, keys: Keys, now: Time,
                  cityFails: Option<Failure>, instrumentFails: Option<Failure>): Result<(Tables, Id), RegError>
  {
    var c := CityStep(db.cidades, db.nextId, tenant, req.cidadeId, keys.cidade, cityFails);
    if c.Failed? then Err(c.error)
    else
      var i := InstrumentStep(db.instrumentos, c.nextId, tenant, req.instrumentoId, keys.instrumento, instrumentFails);
      if i.Failed? then Err(i.error)
      else
        var registro := Registro(i.nextId, tenant, userId, eventId, keys.funcao, c.id.value, i.id, None, now);
        Ok((Tables(c.table, i.table, db.registros + [registro], i.nextId + 1), i.nextId))
  }

  /**
   * `create`, one transaction: the tables become those of `Registered`, and a
   * failure anywhere leaves every table as it was (the restores and inserts are
   * rolled back).
   */
  method Create(db: Database, userId: Id, tenant: Id, req: Request, now: Time, startText: Time -> string,
                cityFails: Option<Failure>, instrumentFails: Option<Failure>) returns (r: Result<Id, RegError>)
    requires TableValid(db.cidades, db.nextId) && TableValid(db.instrumentos, db.nextId)
    modifies db`cidades, db`instrumentos, db`registros, db`nextId
    ensures TableValid(db.cidades, db.nextId) && TableValid(db.instrumentos, db.nextId)
    ensures var out := Registered(db.users, db.eventos, db.convocacoes, old(Tables(db.cidades, db.instrumentos, db.registros, db.nextId)), userId, tenant, req, now, startText,
                                  cityFails, instrumentFails);
      (out.Err? ==> r == Err(out.error) && Tables(db.cidades, db.instrumentos, db.registros, db.nextId) == old(Tables(db.cidades, db.instrumentos, db.registros, db.nextId))) &&
      (out.Ok? ==> r == Ok(out.value.1) && Tables(db.cidades, db.instrumentos, db.registros, db.nextId) == out.value.0)
  {
    var out := Register(db.users, db.eventos, db.convocacoes, Tables(db.cidades, db.instrumentos, db.registros, db.nextId), userId, tenant, req, now, startText, cityFails, instrumentFails);
    if out.Err? {
      return Err(out.error);
    }
    var (t, id) := out.value;
    db.cidades, db.instrumentos, db.registros, db.nextId := t.cidades, t.instrumentos, t.registros, t.nextId;
    r := Ok(id);
  }

  /** The steps of `create` inside the transaction, on the tables it reads and writes. */
  method Register(users: seq<User>, eventos: seq<Evento>, convocacoes: seq<Convocacao>, db: Tables, userId: Id, tenant: Id,
                  req: Request, now: Time, startText: Time -> string, cityFails: Option<Failure>, instrumentFails: Option<Failure>)
    returns (out: Result<(Tables, Id), RegError>)
    ensures out == Registered(users, eventos, convocacoes, db, userId, tenant, req, now, startText, cityFails, instrumentFails)
    ensures out.Ok? && TableValid(db.cidades, db.nextId) && TableValid(db.instrumentos, db.nextId) ==>
      TableValid(out.value.0.cidades, out.value.0.nextId) && TableValid(out.value.0.instrumentos, out.value.0.nextId)
  {
    var gate := EventGate(users, eventos, convocacoes, userId, tenant, now, startText);
    if gate.Err? {
      return Err(gate.error);
    }
    var keys := KeysOf(req);
    out := RecordAttendance(db, gate.value.id, userId, tenant, req, keys, now, cityFails, instrumentFails);
    if TableValid(db.cidades, db.nextId) && TableValid(db.instrumentos, db.nextId) {
      AttendKeepsValid(db, gate.value.id, userId, tenant, req, keys, now, cityFails, instrumentFails);
    }
  }

  /** The writes of `create`, step by step. */
  method RecordAttendance(db: Tables, eventId: Id, userId: Id, tenant: Id, req: Request, keys: Keys, now: Time,
                          cityFails: Option<Failure>, instrumentFails: Option<Failure>) returns (out: Result<(Tables, Id), RegError>)
    ensures out == Attend(db, eventId, userId, tenant, req, keys, now, cityFails, instrumentFails)
  {
    var city := ResolveCity(db.cidades, db.nextId, tenant, req.cidadeId, keys.cidade, cityFails);
    if city.Failed? {
      return Err(city.error);
    }
    var inst := ResolveInstrument(db.instrumentos, city.nextId, tenant, req.instrumentoId, keys.instrumento, instrumentFails);
    if inst.Failed? {
      return Err(inst.error);
    }
    var registro := Registro(inst.nextId, tenant, userId, eventId, keys.funcao, city.id.value, inst.id, None, now);
    out := Ok((Tables(city.table, inst.table, db.registros + [registro], inst.nextId + 1), registro.id));
  }

  /** The writes keep the unique keys and the primary keys of the city and instrument tables. */
  lemma AttendKeepsValid(db: Tables, eventId: Id, userId: Id, tenant: Id, req: Request, keys: Keys, now: Time,
                    cityFails: Option<Failure>, instrumentFails: Option<Failure>)
    requires TableValid(db.cidades, db.nextId) && TableValid(db.instrumentos, db.nextId)
    ensures var out := Attend(db, eventId, userId, tenant, req, keys, now, cityFails, instrumentFails);
      out.Ok? ==> TableValid(out.value.0.cidades, out.value.0.nextId) && TableValid(out.value.0.instrumentos, out.value.0.nextId)
  {
    var c := CityStep(db.cidades, db.nextId, tenant, req.cidadeId, keys.cidade, cityFails);
    CityStepSpec(db.cidades, db.nextId, tenant, req.cidadeId, keys.cidade, cityFails);
    if c.Resolved? {
      ValidUpTo(db.instrumentos, db.nextId, c.nextId);
      var i := InstrumentStep(db.instrumentos, c.nextId, tenant, req.instrumentoId, keys.instrumento, instrumentFails);
      InstrumentStepSpec(db.instrumentos, c.nextId, tenant, req.instrumentoId, keys.instrumento, instrumentFails);
      if i.Resolved? {
        ValidUpTo(c.table, c.nextId, i.nextId + 1);
        ValidUpTo(i.table, i.nextId, i.nextId + 1);
      }
    }
  }

  /**
   * Writes that succeed append exactly one record and change no other record:
   * the record is the user's, in the tenant, for the event, with the normalised
   * ministry function, a city that is live in the tenant, an instrument that is
   * live in the tenant when there is one, no free-text instrument, and a fresh id.
   */
  lemma AttendRecord(db: Tables, eventId: Id, userId: Id, tenant: Id, req: Request, keys: Keys, now: Time,
                    cityFails: Option<Failure>, instrumentFails: Option<Failure>)
    ensures var out := Attend(db, eventId, userId, tenant, req, keys, now, cityFails, instrumentFails);
      out.Ok? ==>
        var (t, id) := out.value;
        |t.registros| == |db.registros| + 1 && t.registros[..|db.registros|] == db.registros &&
        var rec := t.registros[|db.registros|];
        rec.id == id && db.nextId <= id < t.nextId && rec.tenantId == tenant && rec.userId == userId &&
        rec.ensaioRegionalId == eventId && rec.funcaoMinisterio == keys.funcao &&
        FindById(t.cidades, tenant, rec.cidadeId).Some? &&
        (rec.instrumentoId.Some? ==> FindById(t.instrumentos, tenant, rec.instrumentoId.value).Some?) &&
        rec.instrumentoOutro.None? && rec.createdAt == now
  {
    var c := CityStep(db.cidades, db.nextId, tenant, req.cidadeId, keys.cidade, cityFails);
    CityStepSpec(db.cidades, db.nextId, tenant, req.cidadeId, keys.cidade, cityFails);
    if c.Resolved? {
      InstrumentStepSpec(db.instrumentos, c.nextId, tenant, req.instrumentoId, keys.instrumento, instrumentFails);
    }
  }

  /**
   * The writes fail in order, the city before the instrument; without a city
   * id or name the city is required, whatever the instrument.
   */
  lemma AttendErrors(db: Tables, eventId: Id, userId: Id, tenant: Id, req: Request, keys: Keys, now: Time,
                    cityFails: Option<Failure>, instrumentFails: Option<Failure>)
    ensures var out := Attend(db, eventId, userId, tenant, req, keys, now, cityFails, instrumentFails);
      var c := CityStep(db.cidades, db.nextId, tenant, req.cidadeId, keys.cidade, cityFails);
      (c.Failed? ==> out == Err(c.error)) &&
      (c.Resolved? && InstrumentStep(db.instrumentos, c.nextId, tenant, req.instrumentoId, keys.instrumento, instrumentFails).Failed? ==>
        out == Err(InstrumentStep(db.instrumentos, c.nextId, tenant, req.instrumentoId, keys.instrumento, instrumentFails).error))
    ensures req.cidadeId.None? && keys.cidade.None? ==> Attend(db, eventId, userId, tenant, req, keys, now, cityFails, instrumentFails) == Err(CityRequired)
  {
    CityStepSpec(db.cidades, db.nextId, tenant, req.cidadeId, keys.cidade, cityFails);
  }

  /**
   * Registering with the ids of a live city and a live instrument of the
   * tenant, or with no instrument at all, always succeeds and adds nothing to
   * either table.
   */
  lemma AttendByIds(db: Tables, eventId: Id, userId: Id, tenant: Id, req: Request, keys: Keys, now: Time,
                    cityFails: Option<Failure>, instrumentFails: Option<Failure>)
    requires req.cidadeId.Some? && FindById(db.cidades, tenant, req.cidadeId.value).Some?
    requires (req.instrumentoId.Some? && FindById(db.instrumentos, tenant, req.instrumentoId.value).Some?) ||
             (req.instrumentoId.None? && keys.instrumento.None?)
    ensures var out := Attend(db, eventId, userId, tenant, req, keys, now, cityFails, instrumentFails);
      out.Ok? && out.value.0.cidades == db.cidades && out.value.0.instrumentos == db.instrumentos &&
      out.value.0.nextId == db.nextId + 1 && out.value.1 == db.nextId &&
      out.value.0.registros[|db.registros|].cidadeId == req.cidadeId.value &&
      out.value.0.registros[|db.registros|].instrumentoId == req.instrumentoId
  {
    CityStepSpec(db.cidades, db.nextId, tenant, req.cidadeId, keys.cidade, cityFails);
    InstrumentStepSpec(db.instrumentos, db.nextId, tenant, req.instrumentoId, keys.instrumento, instrumentFails);
  }

  /**
   * `create` writes only past the gate, and then for the gate's event: an
   * error of the gate is the result, and a success is a record for an event
   * that is live, active, of the tenant and open at `now`.
   */
  lemma RegisteredGate(users: seq<User>, eventos: seq<Evento>, convocacoes: seq<Convocacao>, db: Tables, userId: Id, tenant: Id,
                       req: Request, now: Time, startText: Time -> string, cityFails: Option<Failure>, instrumentFails: Option<Failure>)
    ensures var out := Registered(users, eventos, convocacoes, db, userId, tenant, req, now, startText, cityFails, instrumentFails);
      var g := EventGate(users, eventos, convocacoes, userId, tenant, now, startText);
      g.Err? ==> out == Err(g.error)
    ensures var out := Registered(users, eventos, convocacoes, db, userId, tenant, req, now, startText, cityFails, instrumentFails);
      out.Ok? ==>
        exists e | e in eventos :: e.tenantId == tenant && e.deletedAt.None? && e.ativo &&
          StartOf(e).Some? && EndOf(e).Some? && StartOf(e).value <= now <= EndOf(e).value &&
          out.value.0.registros[|db.registros|].ensaioRegionalId == e.id
  {
    var g := EventGate(users, eventos, convocacoes, userId, tenant, now, startText);
    if g.Ok? {
      AttendRecord(db, g.value.id, userId, tenant, req, KeysOf(req), now, cityFails, instrumentFails);
    }
  }

  // ---------------------------------------------------------------- getActiveEvent

  /** The event as `getActiveEvent` returns it: the window is the new columns, else the legacy ones. */
  datatype ActiveEvent = ActiveEvent(
    id: Id, nome: string, dataEvento: Time, dataHoraInicio: Option<Time>, dataHoraFim: Option<Time>,
    localEvento: Option<string>, modoConvocacao: bool)

  function Summary(e: Evento): ActiveEvent
  {
    ActiveEvent(e.id, e.nome, e.dataEvento, StartOf(e), EndOf(e), e.localEvento, e.modoConvocacao)
  }

  /** `isWithinWindow`: `now >= start && now <= end`, where a null end point compares as 0. */
  predicate WithinWindow(e: Evento, now: Time)
  {
    now >= AsTime(StartOf(e)) && now <= AsTime(EndOf(e))
  }

  /** JavaScript's `now > t` when `t` may be null: null compares as 0. */
  function AsTime(t: Option<Time>): Time
  {
    if t.Some? then t.value else 0
  }

  /** The filter of `getActiveEvent`'s fallback: either pair of window columns set and around `now`. */
  function OpenForDisplay(tenant: Id, now: Time): Evento -> bool
  {
    (e: Evento) => e.tenantId == tenant && e.ativo && e.deletedAt.None? &&
      ((e.dataInicio.Some? && e.dataInicio.value <= now && e.dataFim.Some? && e.dataFim.value >= now) ||
       (e.dataHoraInicio.Some? && e.dataHoraInicio.value <= now && e.dataHoraFim.Some? && e.dataHoraFim.value >= now))
  }

  /** The user's linked event, when it is in the tenant and not deleted (it may be inactive or closed). */
  function LinkedLive(users: seq<User>, eventos: seq<Evento>, userId: Id, tenant: Id): (r: Option<nat>)
    ensures r.Some? ==> r.value < |eventos| && eventos[r.value].tenantId == tenant && eventos[r.value].deletedAt.None?
    ensures r.Some? ==> Some(eventos[r.value].id) == LinkedEventId(users, userId)
  {
    var linked := LinkedEventId(users, userId);
    if linked.None? then None
    else FirstWhere(eventos, (e: Evento) => e.id == linked.value && e.tenantId == tenant && e.deletedAt.None?)
  }

  /**
   * `getActiveEvent`: the linked event when it is active and inside its window;
   * otherwise the tenant's open event; failing that, the linked event whatever
   * its state; null only when there is neither.
   */
  function GetActiveEvent(users: seq<User>, eventos: seq<Evento>, userId: Id, tenant: Id, now: Time): Option<ActiveEvent>
  {
    var linked := LinkedLive(users, eventos, userId, tenant);
    var open := LatestWhere(eventos, OpenForDisplay(tenant, now));
    if linked.Some? && eventos[linked.value].ativo && WithinWindow(eventos[linked.value], now) then Some(Summary(eventos[linked.value]))
    else if open.Some? then Some(Summary(eventos[open.value]))
    else if linked.Some? then Some(Summary(eventos[linked.value]))
    else None
  }

  /** The four outcomes of `getActiveEvent`, and null exactly when there is neither a linked nor an open event. */
  lemma ActiveEventCases(users: seq<User>, eventos: seq<Evento>, userId: Id, tenant: Id, now: Time)
    ensures var r := GetActiveEvent(users, eventos, userId, tenant, now);
      var linked := LinkedLive(users, eventos, userId, tenant);
      (r.None? <==> linked.None? && forall j | 0 <= j < |eventos| :: !OpenForDisplay(tenant, now)(eventos[j])) &&
      (linked.Some? && eventos[linked.value].ativo && WithinWindow(eventos[linked.value], now) ==>
        r == Some(Summary(eventos[linked.value]))) &&
      (r.Some? && (linked.None? || r.value != Summary(eventos[linked.value])) ==>
        exists j | 0 <= j < |eventos| :: OpenForDisplay(tenant, now)(eventos[j]) && r.value == Summary(eventos[j]))
  {
  }

  /**
   * The two lookups disagree: an event whose only window is the legacy pair is
   * shown by `getActiveEvent` but never chosen by `create`'s fallback.
   */
  lemma LegacyWindowShownNotChosen(e: Evento, tenant: Id, now: Time)
    requires e.tenantId == tenant && e.ativo && e.deletedAt.None? && e.dataInicio.None?
    requires e.dataHoraInicio.Some? && e.dataHoraInicio.value <= now && e.dataHoraFim.Some? && now <= e.dataHoraFim.value
    ensures OpenForDisplay(tenant, now)(e) && !OpenForCreate(tenant, now)(e)
  {
  }
}
