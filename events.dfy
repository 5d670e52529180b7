/**
 * `EnsaioRegionalService` (backend/src/application/services/ensaio-regional.service.ts)
 * over `EnsaioRegionalRepository` (backend/src/infra/repositories/ensaio-regional.repository.ts):
 * the rehearsal events of a tenant, their creation and update with validation
 * and defaults, the soft delete, and the summons list with the user links that
 * mirror it.
 */
module Events {
  import opened Wrappers
  import opened Store
  import opened Text

  /** `s.trim().toUpperCase()`. */
  function Canon(s: string): string
  {
    ToUpper(Trim(s))
  }

  /** `s?.trim().toUpperCase()`: an absent field stays absent. */
  function CanonOpt(s: Option<string>): (r: Option<string>)
    ensures r.Some? <==> s.Some?
  {
    if s.Some? then Some(Canon(s.value)) else None
  }

  /**
   * A date field as sent, after `new Date(text)`: the empty string (falsy, and
   * not a date), text that parses to an instant, or other text.
   */
  datatype DateText = Blank | Parsed(t: Time) | Unparseable

  datatype EventError =
    | InvalidDates
    | EndNotAfterStart
    | SameRegionals
    | Duplicate
    | InvalidDate
    | InvalidStart
    | InvalidEnd
    | DuplicateOnUpdate
    | NotFound
    | EventNotFound
    | UserNotFound
    | EnsaioNotFound
    /** `createMany` met the (ensaioRegionalId, userId) unique key: Prisma's `P2002`. */
    | SummonConflict

  /** The message each error is thrown with. */
  function Message(e: EventError): string
    requires !e.SummonConflict?
  {
    match e
    case InvalidDates => "Datas ou Horários inválidos"
    case EndNotAfterStart => "O horário de término deve ser após o horário de início"
    case SameRegionals => "O Regional Secundário não pode ser igual ao Principal"
    case Duplicate => "Evento Musical já existe nesta data"
    case InvalidDate => "Invalid date"
    case InvalidStart => "Data de início inválida"
    case InvalidEnd => "Data de término inválida"
    case DuplicateOnUpdate => "Ensaio already exists with this name and date"
    case NotFound => "Not found"
    case EventNotFound => "Evento não encontrado"
    case UserNotFound => "User not found"
    case EnsaioNotFound => "Ensaio not found"
  }

  // ---------------------------------------------------------------- repository queries

  predicate LiveIn(e: Evento, tenant: Id)
  {
    e.tenantId == tenant && e.deletedAt.None?
  }

  /** `findById`: the first live event of the tenant with that id. */
  function FindEvent(es: seq<Evento>, tenant: Id, id: Id): (r: Option<nat>)
    ensures r.Some? ==> r.value < |es| && es[r.value].id == id && LiveIn(es[r.value], tenant)
    ensures r.None? ==> forall j | 0 <= j < |es| :: !(es[j].id == id && LiveIn(es[j], tenant))
  {
    FirstWhere(es, (e: Evento) => e.id == id && LiveIn(e, tenant))
  }

  /** The filter of `findDuplicate`: a live event of the tenant with that name and day, other than `exclude`. */
  predicate SameKey(e: Evento, tenant: Id, nome: string, day: Time, exclude: Option<Id>)
  {
    LiveIn(e, tenant) && e.nome == nome && e.dataEvento == day && (exclude.None? || e.id != exclude.value)
  }

  /** `findDuplicate`: soft-deleted rows and the excluded id never count. */
  function FindDuplicate(es: seq<Evento>, tenant: Id, nome: string, day: Time, exclude: Option<Id>): (r: Option<nat>)
    ensures r.Some? ==> r.value < |es| && SameKey(es[r.value], tenant, nome, day, exclude)
    ensures r.None? ==> forall j | 0 <= j < |es| :: !SameKey(es[j], tenant, nome, day, exclude)
  {
    FirstWhere(es, (e: Evento) => SameKey(e, tenant, nome, day, exclude))
  }

  /** Ids are below the key counter and distinct, and no two live events of a tenant share a name and a day. */
  predicate EventsValid(es: seq<Evento>, nextId: nat)
  {
    (forall i | 0 <= i < |es| :: es[i].id < nextId) &&
    (forall i, j | 0 <= i < j < |es| :: es[i].id != es[j].id) &&
    (forall i, j | 0 <= i < j < |es| && LiveIn(es[i], es[j].tenantId) && es[j].deletedAt.None? ::
      !(es[i].nome == es[j].nome && es[i].dataEvento == es[j].dataEvento))
  }

  // ---------------------------------------------------------------- list

  predicate NewestFirst(s: seq<Evento>)
  {
    forall i, j | 0 <= i < j < |s| :: s[i].dataEvento >= s[j].dataEvento
  }

  /** Every event of `s` is dated no later than `day`. */
  predicate AllAtMost(s: seq<Evento>, day: Time)
  {
    forall i | 0 <= i < |s| :: s[i].dataEvento <= day
  }

  /** Places `x` before the first event that is not newer than it. */
  function InsertByDate(x: Evento, s: seq<Evento>): (r: seq<Evento>)
    ensures multiset(r) == multiset(s) + multiset{x}
    decreases |s|
  {
    if s == [] || s[0].dataEvento <= x.dataEvento then [x] + s
    else
      assert s == [s[0]] + s[1..];
      [s[0]] + InsertByDate(x, s[1..])
  }

  /** Inserting keeps a bound that both the sequence and the new event respect. */
  lemma {:induction false} InsertAtMost(x: Evento, s: seq<Evento>, day: Time)
    requires AllAtMost(s, day) && x.dataEvento <= day
    ensures AllAtMost(InsertByDate(x, s), day)
    decreases |s|
  {
    if s != [] && s[0].dataEvento > x.dataEvento {
      InsertAtMost(x, s[1..], day);
    }
  }

  /** Inserting into a newest-first sequence keeps it newest first. */
  lemma {:induction false} InsertNewestFirst(x: Evento, s: seq<Evento>)
    requires NewestFirst(s)
    ensures NewestFirst(InsertByDate(x, s))
    decreases |s|
  {
    if s != [] && s[0].dataEvento > x.dataEvento {
      var rest := InsertByDate(x, s[1..]);
      InsertNewestFirst(x, s[1..]);
      InsertAtMost(x, s[1..], s[0].dataEvento);
      assert InsertByDate(x, s) == [s[0]] + rest;
    } else {
      assert AllAtMost(s, x.dataEvento);
    }
  }

  /** `orderBy: { dataEvento: 'desc' }`, as an insertion sort. */
  function SortNewestFirst(s: seq<Evento>): (r: seq<Evento>)
    ensures multiset(r) == multiset(s)
    ensures NewestFirst(r)
    decreases |s|
  {
    if s == [] then []
    else
      assert s == [s[0]] + s[1..];
      InsertNewestFirst(s[0], SortNewestFirst(s[1..]));
      InsertByDate(s[0], SortNewestFirst(s[1..]))
  }

  /** `list`: the tenant's live events, newest `dataEvento` first. */
  function ListEvents(es: seq<Evento>, tenant: Id): (r: seq<Evento>)
    ensures NewestFirst(r)
    ensures forall x :: x in r <==> x in es && LiveIn(x, tenant)
    ensures multiset(r) == multiset(Where(es, (e: Evento) => LiveIn(e, tenant)))
  {
    var live := Where(es, (e: Evento) => LiveIn(e, tenant));
    var r := SortNewestFirst(live);
    assert forall x :: x in r <==> x in live by {
      forall x ensures x in r <==> x in live {
        assert x in r <==> x in multiset(r);
      }
    }
    r
  }

  // ---------------------------------------------------------------- create

  datatype NewEvent = NewEvent(
    nome: string, dataEvento: DateText, dataHoraInicio: DateText, dataHoraFim: DateText,
    ativo: Option<bool>, anciaoAtendimento: Option<string>,
    regionalRegente: Option<string>, regionalRegente2: Option<string>,
    regionalPrincipal: Option<string>, regionalSecundario: Option<string>,
    tipoResponsavelPrincipal: Option<string>, tipoResponsavelSecundario: Option<string>,
    localEvento: Option<string>, cidadeEvento: Option<string>, modoConvocacao: Option<bool>)

  /** `create`'s check: both regionals given, and equal once trimmed and upper-cased. */
  predicate RegionalsClash(principal: Option<string>, secundario: Option<string>)
  {
    Truthy(principal) && Truthy(secundario) && Canon(principal.value) == Canon(secundario.value)
  }

  /** The row `create` stores, with its defaults. */
  function NewRow(input: NewEvent, tenant: Id, id: Id, day: Time, start: Time, end: Time): Evento
  {
    Evento(id, tenant, Canon(input.nome), day, Some(start), Some(end), Some(start), Some(end),
      if input.ativo.Some? then input.ativo.value else true,
      if input.modoConvocacao.Some? then input.modoConvocacao.value else false,
      CanonOpt(input.anciaoAtendimento), CanonOpt(input.regionalRegente), CanonOpt(input.regionalRegente2),
      Or(CanonOpt(input.regionalPrincipal), CanonOpt(input.regionalRegente)),
      Or(CanonOpt(input.regionalSecundario), CanonOpt(input.regionalRegente2)),
      OrDefault(input.tipoResponsavelPrincipal, "REGIONAL"), OrDefault(input.tipoResponsavelSecundario, "REGIONAL"),
      CanonOpt(input.localEvento), CanonOpt(input.cidadeEvento), None, None)
  }

  /** `create`: the dates, their order, the regionals, the duplicate check, then the new row. */
  function Created(es: seq<Evento>, nextId: nat, input: NewEvent, tenant: Id): Result<Evento, EventError>
  {
    if !input.dataEvento.Parsed? || !input.dataHoraInicio.Parsed? || !input.dataHoraFim.Parsed? then Err(InvalidDates)
    else if input.dataHoraFim.t <= input.dataHoraInicio.t then Err(EndNotAfterStart)
    else if RegionalsClash(input.regionalPrincipal, input.regionalSecundario) then Err(SameRegionals)
    else if FindDuplicate(es, tenant, Canon(input.nome), input.dataEvento.t, None).Some? then Err(Duplicate)
    else Ok(NewRow(input, tenant, nextId, input.dataEvento.t, input.dataHoraInicio.t, input.dataHoraFim.t))
  }

  /**
   * What `create` accepts and stores: three parsed dates with the end after
   * the start, no clash of regionals, no live event of the tenant with the same
   * upper-cased name and day; the row is new, live, in the tenant, mirrors the
   * window into `dataInicio`/`dataFim`, is active and not summons-only unless
   * told otherwise, and takes the conductors as regionals when none are given.
   */
  lemma CreatedSpec(es: seq<Evento>, nextId: nat, input: NewEvent, tenant: Id)
    ensures var r := Created(es, nextId, input, tenant);
      r.Ok? <==>
        input.dataEvento.Parsed? && input.dataHoraInicio.Parsed? && input.dataHoraFim.Parsed? &&
        input.dataHoraInicio.t < input.dataHoraFim.t &&
        !RegionalsClash(input.regionalPrincipal, input.regionalSecundario) &&
        forall j | 0 <= j < |es| :: !(LiveIn(es[j], tenant) && es[j].nome == Canon(input.nome) && es[j].dataEvento == input.dataEvento.t)
    ensures var r := Created(es, nextId, input, tenant);
      r.Ok? ==>
        r.value.id == nextId && LiveIn(r.value, tenant) && r.value.nome == Canon(input.nome) &&
        r.value.dataEvento == input.dataEvento.t &&
        r.value.dataHoraInicio == r.value.dataInicio == Some(input.dataHoraInicio.t) &&
        r.value.dataHoraFim == r.value.dataFim == Some(input.dataHoraFim.t) &&
        (r.value.ativo <==> input.ativo != Some(false)) &&
        (r.value.modoConvocacao <==> input.modoConvocacao == Some(true)) &&
        r.value.tipoResponsavelPrincipal != "" && r.value.tipoResponsavelSecundario != "" &&
        (!Truthy(CanonOpt(input.regionalPrincipal)) ==> r.value.regionalPrincipal == CanonOpt(input.regionalRegente)) &&
        (!Truthy(CanonOpt(input.regionalSecundario)) ==> r.value.regionalSecundario == CanonOpt(input.regionalRegente2))
    ensures var r := Created(es, nextId, input, tenant);
      (r == Err(InvalidDates) <==> !input.dataEvento.Parsed? || !input.dataHoraInicio.Parsed? || !input.dataHoraFim.Parsed?) &&
      (r == Err(EndNotAfterStart) <==>
        input.dataEvento.Parsed? && input.dataHoraInicio.Parsed? && input.dataHoraFim.Parsed? &&
        input.dataHoraFim.t <= input.dataHoraInicio.t)
  {
  }

  /** A created event keeps the table valid: its id is fresh and its name and day are free in the tenant. */
  lemma CreatedKeepsValid(es: seq<Evento>, nextId: nat, input: NewEvent, tenant: Id)
    requires EventsValid(es, nextId)
    ensures var r := Created(es, nextId, input, tenant);
      r.Ok? ==> EventsValid(es + [r.value], nextId + 1)
  {
    var r := Created(es, nextId, input, tenant);
    if r.Ok? {
      var t := es + [r.value];
      forall i, j | 0 <= i < j < |t| && LiveIn(t[i], t[j].tenantId) && t[j].deletedAt.None?
        ensures !(t[i].nome == t[j].nome && t[i].dataEvento == t[j].dataEvento)
      {
        if j == |es| {
          assert !SameKey(es[i], tenant, r.value.nome, r.value.dataEvento, None);
        }
      }
    }
  }

  /**
   * `create` (the audit entry is not modelled): the checks in the order the
   * service makes them, then one appended row with the next key.
   */
  method CreateEvent(db: Database, input: NewEvent, tenant: Id) returns (r: Result<Evento, EventError>)
    modifies db`eventos, db`nextId
    ensures r == Created(old(db.eventos), old(db.nextId), input, tenant)
    ensures r.Ok? ==> db.eventos == old(db.eventos) + [r.value] && db.nextId == old(db.nextId) + 1
    ensures r.Err? ==> db.eventos == old(db.eventos) && db.nextId == old(db.nextId)
  {
    if !input.dataEvento.Parsed? || !input.dataHoraInicio.Parsed? || !input.dataHoraFim.Parsed? {
      return Err(InvalidDates);
    }
    var day, start, end := input.dataEvento.t, input.dataHoraInicio.t, input.dataHoraFim.t;
    if end <= start {
      return Err(EndNotAfterStart);
    }
    if RegionalsClash(input.regionalPrincipal, input.regionalSecundario) {
      return Err(SameRegionals);
    }
    var nome := Canon(input.nome);
    var exists_ := FindDuplicate(db.eventos, tenant, nome, day, None);
    if exists_.Some? {
      return Err(Duplicate);
    }
    var row := NewRow(input, tenant, db.nextId, day, start, end);
    db.eventos := db.eventos + [row];
    db.nextId := db.nextId + 1;
    r := Ok(row);
  }

  // ---------------------------------------------------------------- update

  datatype EventChanges = EventChanges(
    nome: Option<string>, dataEvento: Option<DateText>, dataHoraInicio: Option<DateText>, dataHoraFim: Option<DateText>,
    ativo: Option<bool>, anciaoAtendimento: Option<string>,
    regionalRegente: Option<string>, regionalRegente2: Option<string>,
    regionalPrincipal: Option<string>, regionalSecundario: Option<string>,
    tipoResponsavelPrincipal: Option<string>, tipoResponsavelSecundario: Option<string>,
    localEvento: Option<string>, cidadeEvento: Option<string>, modoConvocacao: Option<bool>)

  /** The `updateData` object: the columns to write; `None` leaves a column as it is. */
  datatype EventPatch = EventPatch(
    nome: Option<string>, dataEvento: Option<Time>, dataHoraInicio: Option<Time>, dataHoraFim: Option<Time>,
    ativo: Option<bool>, anciaoAtendimento: Option<string>,
    regionalRegente: Option<string>, regionalRegente2: Option<string>,
    regionalPrincipal: Option<string>, regionalSecundario: Option<string>,
    tipoResponsavelPrincipal: Option<string>, tipoResponsavelSecundario: Option<string>,
    localEvento: Option<string>, cidadeEvento: Option<string>, modoConvocacao: Option<bool>)

  /** One date field of `update`: skipped when absent or empty, an error when it does not parse. */
  function DateField(d: Option<DateText>, error: EventError): (r: Result<Option<Time>, EventError>)
    ensures r.Err? <==> d == Some(Unparseable)
    ensures r.Err? ==> r.error == error
    ensures r.Ok? ==> (r.value.Some? <==> d.Some? && d.value.Parsed?) && (r.value.Some? ==> r.value.value == d.value.t)
  {
    if d.None? || d.value.Blank? then Ok(None)
    else if d.value.Unparseable? then Err(error)
    else Ok(Some(d.value.t))
  }

  /**
   * `updateData` built field by field: a truthy name is trimmed and
   * upper-cased, each date is validated on its own (in the order event day,
   * start, end), the text fields are upper-cased, the responsible types are
   * copied as they are.
   */
  function PatchOf(c: EventChanges): Result<EventPatch, EventError>
  {
    var day := DateField(c.dataEvento, InvalidDate);
    var start := DateField(c.dataHoraInicio, InvalidStart);
    var end := DateField(c.dataHoraFim, InvalidEnd);
    if day.Err? then Err(day.error)
    else if start.Err? then Err(start.error)
    else if end.Err? then Err(end.error)
    else Ok(EventPatch(
      if Truthy(c.nome) then Some(Canon(c.nome.value)) else None,
      day.value, start.value, end.value, c.ativo, CanonOpt(c.anciaoAtendimento),
      CanonOpt(c.regionalRegente), CanonOpt(c.regionalRegente2),
      CanonOpt(c.regionalPrincipal), CanonOpt(c.regionalSecundario),
      c.tipoResponsavelPrincipal, c.tipoResponsavelSecundario,
      CanonOpt(c.localEvento), CanonOpt(c.cidadeEvento), c.modoConvocacao))
  }

  function Pick<T>(v: Option<T>, current: T): T
  {
    if v.Some? then v.value else current
  }

  /** Prisma's `update` with `updateData`; a new start or end is mirrored into `dataInicio`/`dataFim`. */
  function Apply(e: Evento, p: EventPatch): Evento
  {
    e.(nome := Pick(p.nome, e.nome), dataEvento := Pick(p.dataEvento, e.dataEvento),
       dataHoraInicio := if p.dataHoraInicio.Some? then p.dataHoraInicio else e.dataHoraInicio,
       dataHoraFim := if p.dataHoraFim.Some? then p.dataHoraFim else e.dataHoraFim,
       dataInicio := if p.dataHoraInicio.Some? then p.dataHoraInicio else e.dataInicio,
       dataFim := if p.dataHoraFim.Some? then p.dataHoraFim else e.dataFim,
       ativo := Pick(p.ativo, e.ativo),
       anciaoAtendimento := if p.anciaoAtendimento.Some? then p.anciaoAtendimento else e.anciaoAtendimento,
       regionalRegente := if p.regionalRegente.Some? then p.regionalRegente else e.regionalRegente,
       regionalRegente2 := if p.regionalRegente2.Some? then p.regionalRegente2 else e.regionalRegente2,
       regionalPrincipal := if p.regionalPrincipal.Some? then p.regionalPrincipal else e.regionalPrincipal,
       regionalSecundario := if p.regionalSecundario.Some? then p.regionalSecundario else e.regionalSecundario,
       tipoResponsavelPrincipal := Pick(p.tipoResponsavelPrincipal, e.tipoResponsavelPrincipal),
       tipoResponsavelSecundario := Pick(p.tipoResponsavelSecundario, e.tipoResponsavelSecundario),
       localEvento := if p.localEvento.Some? then p.localEvento else e.localEvento,
       cidadeEvento := if p.cidadeEvento.Some? then p.cidadeEvento else e.cidadeEvento,
       modoConvocacao := Pick(p.modoConvocacao, e.modoConvocacao))
  }

  /**
   * Writing a patch touches only the columns it names (the id, tenant, owner
   * regional and deletion stamp never), and writing it twice is writing it once.
   */
  lemma ApplySpec(e: Evento, p: EventPatch)
    ensures var e' := Apply(e, p);
      e'.id == e.id && e'.tenantId == e.tenantId && e'.regionalId == e.regionalId && e'.deletedAt == e.deletedAt &&
      (p.nome.None? ==> e'.nome == e.nome) && (p.nome.Some? ==> e'.nome == p.nome.value) &&
      (p.dataEvento.None? ==> e'.dataEvento == e.dataEvento) &&
      (p.dataHoraInicio.Some? ==> e'.dataHoraInicio == e'.dataInicio == p.dataHoraInicio) &&
      (p.dataHoraInicio.None? ==> e'.dataHoraInicio == e.dataHoraInicio && e'.dataInicio == e.dataInicio) &&
      (p.dataHoraFim.Some? ==> e'.dataHoraFim == e'.dataFim == p.dataHoraFim) &&
      (p.dataHoraFim.None? ==> e'.dataHoraFim == e.dataHoraFim && e'.dataFim == e.dataFim)
    ensures Apply(Apply(e, p), p) == Apply(e, p)
    ensures p == EventPatch(None, None, None, None, None, None, None, None, None, None, None, None, None, None, None) ==> Apply(e, p) == e
  {
  }

  /** Whether `update` runs the duplicate check: a truthy new name or a new day. */
  predicate ChecksDuplicate(p: EventPatch)
  {
    Truthy(p.nome) || p.dataEvento.Some?
  }

  /** The name and day the duplicate check looks for: the new ones when truthy, else the row's. */
  function CheckedKey(p: EventPatch, current: Evento): (string, Time)
  {
    (if Truthy(p.nome) then p.nome.value else current.nome, Pick(p.dataEvento, current.dataEvento))
  }

  /** `update`'s check on the regionals: the new-or-current values, trimmed and upper-cased, truthy and equal. */
  predicate UpdateClash(c: EventChanges, current: Evento)
  {
    var r1 := CanonOpt(if c.regionalPrincipal.Some? then c.regionalPrincipal else current.regionalPrincipal);
    var r2 := CanonOpt(if c.regionalSecundario.Some? then c.regionalSecundario else current.regionalSecundario);
    Truthy(r1) && Truthy(r2) && r1 == r2
  }

  /** `update`: the patch, the duplicate check when it applies, the existence check, the regionals, the write. */
  function Updated(es: seq<Evento>, tenant: Id, id: Id, c: EventChanges): Result<(seq<Evento>, Evento), EventError>
  {
    var patch := PatchOf(c);
    var k := FindEvent(es, tenant, id);
    if patch.Err? then Err(patch.error)
    else if k.None? then Err(NotFound)
    else
      var p := patch.value;
      var current := es[k.value];
      var (nome, day) := CheckedKey(p, current);
      if ChecksDuplicate(p) && FindDuplicate(es, tenant, nome, day, Some(id)).Some? then Err(DuplicateOnUpdate)
      else if UpdateClash(c, current) then Err(SameRegionals)
      else
        var e' := Apply(current, p);
        Ok((es[k.value := e'], e'))
  }

  /**
   * What `update` does: an unparseable date fails before anything else is
   * looked at; a missing, soft-deleted or foreign event is 'Not found'; on
   * success exactly the event's row changes, by the patch, and the end is not
   * required to follow the start.
   */
  lemma UpdatedSpec(es: seq<Evento>, tenant: Id, id: Id, c: EventChanges)
    ensures var r := Updated(es, tenant, id, c);
      (PatchOf(c).Err? ==> r == Err(PatchOf(c).error)) &&
      (PatchOf(c).Ok? && FindEvent(es, tenant, id).None? ==> r == Err(NotFound)) &&
      (r.Ok? ==>
        var k := FindEvent(es, tenant, id).value;
        PatchOf(c).Ok? && FindEvent(es, tenant, id).Some? &&
        |r.value.0| == |es| && r.value.0[k] == r.value.1 == Apply(es[k], PatchOf(c).value) &&
        (forall j | 0 <= j < |es| && j != k :: r.value.0[j] == es[j]) &&
        r.value.1.id == id && LiveIn(r.value.1, tenant))
    ensures var r := Updated(es, tenant, id, c);
      (c.dataHoraInicio.Some? && c.dataHoraFim.Some? && c.dataHoraInicio.value.Parsed? && c.dataHoraFim.value.Parsed? &&
       c.dataHoraFim.value.t <= c.dataHoraInicio.value.t && c.dataEvento.None? && !Truthy(c.nome) &&
       FindEvent(es, tenant, id).Some? && !UpdateClash(c, es[FindEvent(es, tenant, id).value])) ==> r.Ok?
  {
  }

  /**
   * An update whose name, if any, is not blank after trimming keeps the table
   * valid: the duplicate check runs on exactly the name and day the row gets.
   */
  lemma UpdatedKeepsValid(es: seq<Evento>, nextId: nat, tenant: Id, id: Id, c: EventChanges)
    requires EventsValid(es, nextId)
    requires Truthy(c.nome) ==> Canon(c.nome.value) != ""
    ensures var r := Updated(es, tenant, id, c);
      r.Ok? ==> EventsValid(r.value.0, nextId)
  {
    var r := Updated(es, tenant, id, c);
    if r.Ok? {
      var k := FindEvent(es, tenant, id).value;
      var p := PatchOf(c).value;
      var t := r.value.0;
      ApplySpec(es[k], p);
      assert forall j | 0 <= j < |es| :: t[j].id == es[j].id && t[j].tenantId == es[j].tenantId && t[j].deletedAt == es[j].deletedAt;
      forall i, j | 0 <= i < j < |t| && LiveIn(t[i], t[j].tenantId) && t[j].deletedAt.None?
        ensures !(t[i].nome == t[j].nome && t[i].dataEvento == t[j].dataEvento)
      {
        if i == k || j == k {
          var other := if i == k then j else i;
          if ChecksDuplicate(p) {
            assert !SameKey(es[other], tenant, t[k].nome, t[k].dataEvento, Some(id));
          } else {
            assert t[k].nome == es[k].nome && t[k].dataEvento == es[k].dataEvento;
          }
        }
      }
    }
  }

  /** The blank-name case the hypothesis above excludes: the row is renamed to "" and no duplicate check runs. */
  lemma BlankNameSkipsCheck(es: seq<Evento>, tenant: Id, id: Id, c: EventChanges)
    requires Truthy(c.nome) && Canon(c.nome.value) == "" && c.dataEvento.None?
    requires PatchOf(c).Ok?
    ensures !ChecksDuplicate(PatchOf(c).value)
    ensures var r := Updated(es, tenant, id, c);
      r.Ok? ==> r.value.1.nome == ""
  {
  }

  /**
   * The blank name breaks the invariant: with a live event named "" and
   * another on the same day, renaming the second to " " passes every check
   * and leaves two live events of the tenant with the same name and day.
   */
  lemma BlankNameBreaksUniqueness()
    ensures exists es: seq<Evento>, c: EventChanges ::
      EventsValid(es, 2) && Updated(es, 0, 1, c).Ok? && !EventsValid(Updated(es, 0, 1, c).value.0, 2)
  {
    var a := Evento(0, 0, "", 0, None, None, None, None, true, false, None, None, None, None, None,
                    "REGIONAL", "REGIONAL", None, None, None, None);
    var b := a.(id := 1, nome := "X");
    var es := [a, b];
    var c := EventChanges(Some(" "), None, None, None, None, None, None, None, None, None, None, None, None, None, None);
    assert Canon(" ") == "" by {
      assert TrimStart(" ") == TrimStart(" "[1..]);
      assert " "[1..] == [];
    }
    assert es[0].id != 1 && es[1].id == 1 && LiveIn(es[1], 0);
    assert FindEvent(es, 0, 1) == Some(1);
    var t := Updated(es, 0, 1, c).value.0;
    assert t[0] == a && t[1].nome == "" && t[1].dataEvento == 0;
  }

  /**
   * `update`, step by step as the service runs it: the patch, the duplicate
   * check (which looks the event up first), the existence check, the
   * regionals, and the repository's write (which looks it up once more).
   */
  method UpdateEvent(db: Database, tenant: Id, id: Id, c: EventChanges) returns (r: Result<Evento, EventError>)
    modifies db`eventos
    ensures var u := Updated(old(db.eventos), tenant, id, c);
      (u.Err? ==> r == Err(u.error) && db.eventos == old(db.eventos)) &&
      (u.Ok? ==> r == Ok(u.value.1) && db.eventos == u.value.0)
  {
    var patch := PatchOf(c);
    if patch.Err? {
      return Err(patch.error);
    }
    var p := patch.value;
    if ChecksDuplicate(p) {
      var found := FindEvent(db.eventos, tenant, id);
      if found.None? {
        return Err(NotFound);
      }
      var (nome, day) := CheckedKey(p, db.eventos[found.value]);
      var duplicate := FindDuplicate(db.eventos, tenant, nome, day, Some(id));
      if duplicate.Some? {
        return Err(DuplicateOnUpdate);
      }
    }
    var k := FindEvent(db.eventos, tenant, id);
    if k.None? {
      return Err(NotFound);
    }
    if UpdateClash(c, db.eventos[k.value]) {
      return Err(SameRegionals);
    }
    var e' := Apply(db.eventos[k.value], p);
    db.eventos := db.eventos[k.value := e'];
    r := Ok(e');
  }

  // ---------------------------------------------------------------- delete

  /** `delete`: 'Not found' unless the event is live in the tenant; otherwise only its deletion stamp is set. */
  method DeleteEvent(db: Database, tenant: Id, id: Id, now: Time) returns (r: Result<Evento, EventError>)
    modifies db`eventos
    ensures FindEvent(old(db.eventos), tenant, id).None? ==> r == Err(NotFound) && db.eventos == old(db.eventos)
    ensures FindEvent(old(db.eventos), tenant, id).Some? ==>
      var k := FindEvent(old(db.eventos), tenant, id).value;
      r == Ok(old(db.eventos)[k].(deletedAt := Some(now))) && db.eventos == old(db.eventos)[k := r.value]
  {
    var k := FindEvent(db.eventos, tenant, id);
    if k.None? {
      return Err(NotFound);
    }
    var e' := db.eventos[k.value].(deletedAt := Some(now));
    db.eventos := db.eventos[k.value := e'];
    r := Ok(e');
  }

  /** A deleted event is gone from every lookup and from the list, and the table stays valid. */
  lemma DeleteHides(es: seq<Evento>, nextId: nat, tenant: Id, id: Id, now: Time)
    requires EventsValid(es, nextId)
    requires FindEvent(es, tenant, id).Some?
    ensures var k := FindEvent(es, tenant, id).value;
      var t := es[k := es[k].(deletedAt := Some(now))];
      EventsValid(t, nextId) && FindEvent(t, tenant, id).None? &&
      forall x | x in ListEvents(t, tenant) :: x.id != id
  {
    var k := FindEvent(es, tenant, id).value;
    var t := es[k := es[k].(deletedAt := Some(now))];
    forall j | 0 <= j < |t| ensures !(t[j].id == id && LiveIn(t[j], tenant)) {
      if j != k {
        assert es[j].id != es[k].id;
      }
    }
  }

  // ---------------------------------------------------------------- summons

  predicate ForEvent(c: Convocacao, e: Id, tenant: Id)
  {
    c.ensaioRegionalId == e && c.tenantId == tenant
  }

  /** The rows `createMany` inserts: one per id, in order, each summoned. */
  function Summons(e: Id, ids: seq<Id>, tenant: Id): (r: seq<Convocacao>)
    ensures |r| == |ids|
    ensures forall j | 0 <= j < |ids| :: r[j] == Convocacao(e, ids[j], tenant, true)
  {
    seq(|ids|, j requires 0 <= j < |ids| => Convocacao(e, ids[j], tenant, true))
  }

  /**
   * The two `updateMany` calls on users of the tenant: those in `ids` are
   * linked to the event, those linked to it and not in `ids` are unlinked.
   */
  function Relink(users: seq<User>, e: Id, ids: seq<Id>, tenant: Id): (r: seq<User>)
    ensures |r| == |users|
  {
    seq(|users|, j requires 0 <= j < |users| =>
      if users[j].tenantId == tenant && users[j].id in ids then users[j].(ensaioRegionalId := Some(e))
      else if users[j].tenantId == tenant && users[j].ensaioRegionalId == Some(e) then users[j].(ensaioRegionalId := None)
      else users[j])
  }

  predicate Distinct(ids: seq<Id>)
  {
    forall i, j | 0 <= i < j < |ids| :: ids[i] != ids[j]
  }

  /** The summons rows left after the `deleteMany`: those of other events or other tenants. */
  function Kept(convs: seq<Convocacao>, e: Id, tenant: Id): seq<Convocacao>
  {
    Where(convs, (c: Convocacao) => !ForEvent(c, e, tenant))
  }

  /** `createMany` fails on the unique key when an id repeats or a kept row already pairs the event with one of them. */
  predicate SummonClash(convs: seq<Convocacao>, e: Id, ids: seq<Id>, tenant: Id)
  {
    !Distinct(ids) || exists c | c in Kept(convs, e, tenant) :: c.ensaioRegionalId == e && c.userId in ids
  }

  /** The repository's `summonUsers` transaction: replace the event's summons wholesale, then relink the users. */
  function Summoned(convs: seq<Convocacao>, users: seq<User>, e: Id, ids: seq<Id>, tenant: Id)
    : Result<(seq<Convocacao>, seq<User>), EventError>
  {
    if SummonClash(convs, e, ids, tenant) then Err(SummonConflict)
    else Ok((Kept(convs, e, tenant) + Summons(e, ids, tenant), Relink(users, e, ids, tenant)))
  }

  /**
   * After a successful summons: the event's rows in the tenant are exactly
   * one summoned row per id, in order, and every other row is kept.
   */
  lemma SummonedRows(convs: seq<Convocacao>, users: seq<User>, e: Id, ids: seq<Id>, tenant: Id)
    ensures Summoned(convs, users, e, ids, tenant).Ok? <==> !SummonClash(convs, e, ids, tenant)
    ensures var r := Summoned(convs, users, e, ids, tenant);
      r.Ok? ==>
        Where(r.value.0, (c: Convocacao) => ForEvent(c, e, tenant)) == Summons(e, ids, tenant) &&
        Where(r.value.0, (c: Convocacao) => !ForEvent(c, e, tenant)) == Kept(convs, e, tenant)
  {
    if !SummonClash(convs, e, ids, tenant) {
      var kept := Kept(convs, e, tenant);
      var added := Summons(e, ids, tenant);
      var mine := (c: Convocacao) => ForEvent(c, e, tenant);
      var others := (c: Convocacao) => !ForEvent(c, e, tenant);
      WhereAppend(kept, added, mine);
      WhereAppend(kept, added, others);
      assert forall j | 0 <= j < |kept| :: kept[j] in kept;
      WhereNone(kept, mine);
      WhereAll(added, mine);
      WhereNone(added, others);
      WhereAll(kept, others);
    }
  }

  /**
   * After a successful summons: a user of the tenant is linked to the event
   * exactly when summoned; users of other tenants, and users neither summoned
   * nor linked to the event, are untouched; only the link column ever changes.
   */
  lemma RelinkSpec(users: seq<User>, e: Id, ids: seq<Id>, tenant: Id)
    ensures var r := Relink(users, e, ids, tenant);
      (forall j | 0 <= j < |users| && users[j].tenantId == tenant ::
        r[j].ensaioRegionalId == Some(e) <==> users[j].id in ids) &&
      (forall j | 0 <= j < |users| && (users[j].tenantId != tenant || (users[j].id !in ids && users[j].ensaioRegionalId != Some(e))) ::
        r[j] == users[j]) &&
      (forall j | 0 <= j < |users| :: r[j] == users[j].(ensaioRegionalId := r[j].ensaioRegionalId))
  {
  }

  /** `summonUsers` with an empty list removes the event's summons in the tenant and unlinks every user linked to it. */
  lemma SummonNobody(convs: seq<Convocacao>, users: seq<User>, e: Id, tenant: Id)
    ensures var r := Summoned(convs, users, e, [], tenant);
      r.Ok? && (forall c | c in r.value.0 :: !ForEvent(c, e, tenant)) &&
      forall j | 0 <= j < |users| && users[j].tenantId == tenant :: r.value.1[j].ensaioRegionalId != Some(e)
  {
    assert !SummonClash(convs, e, [], tenant);
    assert Summons(e, [], tenant) == [];
  }

  /**
   * The service's `summonUsers`: 'Evento não encontrado' unless the event is
   * live in the tenant; then the repository's transaction, which changes
   * nothing when it fails.
   */
  method SummonUsers(db: Database, e: Id, ids: seq<Id>, tenant: Id) returns (r: Result<(), EventError>)
    modifies db`convocacoes, db`users
    ensures FindEvent(db.eventos, tenant, e).None? ==> r == Err(EventNotFound)
    ensures var s := Summoned(old(db.convocacoes), old(db.users), e, ids, tenant);
      FindEvent(db.eventos, tenant, e).Some? ==>
        (s.Err? ==> r == Err(s.error)) && (s.Ok? ==> r == Ok(()) && db.convocacoes == s.value.0 && db.users == s.value.1)
    ensures r.Err? ==> db.convocacoes == old(db.convocacoes) && db.users == old(db.users)
  {
    if FindEvent(db.eventos, tenant, e).None? {
      return Err(EventNotFound);
    }
    var s := Summoned(db.convocacoes, db.users, e, ids, tenant);
    if s.Err? {
      return Err(s.error);
    }
    db.convocacoes, db.users := s.value.0, s.value.1;
    r := Ok(());
  }

  // ---------------------------------------------------------------- link one user

  /** `prisma.user.findFirst({ where: { id, tenantId } })`: soft-deleted users are found too. */
  function FindUser(users: seq<User>, tenant: Id, id: Id): (r: Option<nat>)
    ensures r.Some? ==> r.value < |users| && users[r.value].id == id && users[r.value].tenantId == tenant
    ensures r.None? ==> forall j | 0 <= j < |users| :: !(users[j].id == id && users[j].tenantId == tenant)
  {
    FirstWhere(users, (u: User) => u.id == id && u.tenantId == tenant)
  }

  /** The `upsert` on (ensaioRegionalId, userId): an existing row is marked summoned, otherwise one is created. */
  function UpsertSummons(convs: seq<Convocacao>, e: Id, userId: Id, tenant: Id): (r: seq<Convocacao>)
  {
    match FirstWhere(convs, (c: Convocacao) => c.ensaioRegionalId == e && c.userId == userId)
    case Some(k) => convs[k := convs[k].(convocado := true)]
    case None => convs + [Convocacao(e, userId, tenant, true)]
  }

  /** `linkUser`: the user, then the event, then the link and the summons row in one transaction. */
  function Linked(users: seq<User>, eventos: seq<Evento>, convs: seq<Convocacao>, userId: Id, e: Id, tenant: Id)
    : Result<(seq<User>, seq<Convocacao>), EventError>
  {
    var u := FindUser(users, tenant, userId);
    if u.None? then Err(UserNotFound)
    else if FindEvent(eventos, tenant, e).None? then Err(EnsaioNotFound)
    else Ok((users[u.value := users[u.value].(ensaioRegionalId := Some(e))], UpsertSummons(convs, e, userId, tenant)))
  }

  /**
   * After `linkUser` the user is linked to the event and a summoned row pairs
   * them; no other user changes; the summons table grows by at most one row,
   * and not at all when the pair was already there.
   */
  lemma LinkedSpec(users: seq<User>, eventos: seq<Evento>, convs: seq<Convocacao>, userId: Id, e: Id, tenant: Id)
    ensures var r := Linked(users, eventos, convs, userId, e, tenant);
      (r == Err(UserNotFound) <==> FindUser(users, tenant, userId).None?) &&
      (r == Err(EnsaioNotFound) <==> FindUser(users, tenant, userId).Some? && FindEvent(eventos, tenant, e).None?)
    ensures var r := Linked(users, eventos, convs, userId, e, tenant);
      r.Ok? ==>
        var k := FindUser(users, tenant, userId).value;
        |r.value.0| == |users| && r.value.0[k] == users[k].(ensaioRegionalId := Some(e)) &&
        (forall j | 0 <= j < |users| && j != k :: r.value.0[j] == users[j]) &&
        (exists c | c in r.value.1 :: c.ensaioRegionalId == e && c.userId == userId && c.convocado) &&
        |convs| <= |r.value.1| <= |convs| + 1 &&
        ((exists c | c in convs :: c.ensaioRegionalId == e && c.userId == userId) ==> |r.value.1| == |convs|)
  {
    var r := Linked(users, eventos, convs, userId, e, tenant);
    if r.Ok? {
      var pair := (c: Convocacao) => c.ensaioRegionalId == e && c.userId == userId;
      match FirstWhere(convs, pair)
      case Some(k) =>
        assert r.value.1[k] in r.value.1;
      case None =>
        assert r.value.1[|convs|] in r.value.1;
    }
  }

  /** `linkUser` as the repository runs it. */
  method LinkUser(db: Database, userId: Id, e: Id, tenant: Id) returns (r: Result<(), EventError>)
    modifies db`users, db`convocacoes
    ensures var l := Linked(old(db.users), db.eventos, old(db.convocacoes), userId, e, tenant);
      (l.Err? ==> r == Err(l.error) && db.users == old(db.users) && db.convocacoes == old(db.convocacoes)) &&
      (l.Ok? ==> r == Ok(()) && db.users == l.value.0 && db.convocacoes == l.value.1)
  {
    var u := FindUser(db.users, tenant, userId);
    if u.None? {
      return Err(UserNotFound);
    }
    if FindEvent(db.eventos, tenant, e).None? {
      return Err(EnsaioNotFound);
    }
    db.users := db.users[u.value := db.users[u.value].(ensaioRegionalId := Some(e))];
    db.convocacoes := UpsertSummons(db.convocacoes, e, userId, tenant);
    r := Ok(());
  }
}
