/**
 * `PresencaController.create` (backend/src/interfaces/http/controllers/presenca.controller.ts):
 * the attendance route. The body is checked by a zod schema, the service is
 * called, and a thrown error is answered either by the controller itself or by
 * the global error handler.
 */
module RegistrationHttp {
  import opened Wrappers
  import opened Store
  import opened Text
  import opened ErrorMapping
  import opened Catalog
  import opened Registration

  /** An id field as sent: a well-formed UUID (the key it names) or any other text. */
  datatype RawId = Uuid(id: Id) | Malformed(text: string)

  /** The JSON body; an absent field is `None`. */
  datatype PresencaBody = PresencaBody(
    funcaoMinisterio: Option<string>, cidadeId: Option<RawId>, cidadeNome: Option<string>,
    instrumentoId: Option<RawId>, instrumentoNome: Option<string>)

  /** JavaScript truthiness of an id field: a UUID, or malformed text that is not empty. */
  predicate IdGiven(id: Option<RawId>)
  {
    id.Some? && (id.value.Uuid? || id.value.text != "")
  }

  predicate BadId(id: Option<RawId>)
  {
    id.Some? && id.value.Malformed?
  }

  predicate TooShort(s: Option<string>)
  {
    s.Some? && |s.value| < 2
  }

  function IdOf(id: Option<RawId>): Option<Id>
  {
    if id.Some? && id.value.Uuid? then Some(id.value.id) else None
  }

  /** The fields that fail their own checks, in schema order. */
  function FieldIssues(b: PresencaBody): seq<string>
  {
    (if b.funcaoMinisterio.None? || |b.funcaoMinisterio.value| < 2 then ["funcaoMinisterio"] else []) +
    (if BadId(b.cidadeId) then ["cidadeId"] else []) +
    (if TooShort(b.cidadeNome) then ["cidadeNome"] else []) +
    (if BadId(b.instrumentoId) then ["instrumentoId"] else []) +
    (if TooShort(b.instrumentoNome) then ["instrumentoNome"] else [])
  }

  /**
   * The schema: each field's own check, then the refinement that a city id or
   * name is given ("Cidade é obrigatória.", reported on `cidadeId`). A missing
   * `funcaoMinisterio` aborts the object, so the refinement does not run; a
   * failed length or UUID check does not abort it.
   */
  function ParseBody(b: PresencaBody): (r: Result<Request, seq<string>>)
    ensures r.Ok? <==>
      b.funcaoMinisterio.Some? && |b.funcaoMinisterio.value| >= 2 && !BadId(b.cidadeId) && !TooShort(b.cidadeNome) &&
      !BadId(b.instrumentoId) && !TooShort(b.instrumentoNome) && (b.cidadeId.Some? || b.cidadeNome.Some?)
    ensures r.Ok? ==>
      r.value == Request(b.funcaoMinisterio.value, IdOf(b.cidadeId), b.cidadeNome, IdOf(b.instrumentoId), b.instrumentoNome)
    ensures r.Err? ==> r.error != [] && ("funcaoMinisterio" in r.error <==> b.funcaoMinisterio.None? || |b.funcaoMinisterio.value| < 2)
  {
    var refine := if b.funcaoMinisterio.Some? && !IdGiven(b.cidadeId) && !(b.cidadeNome.Some? && b.cidadeNome.value != "")
      then ["cidadeId"] else [];
    var issues := FieldIssues(b) + refine;
    if issues == [] then
      Ok(Request(b.funcaoMinisterio.value, IdOf(b.cidadeId), b.cidadeNome, IdOf(b.instrumentoId), b.instrumentoNome))
    else Err(issues)
  }

  /**
   * A body the schema accepts always names a city, so the service's "Cidade
   * is required" cannot be reached through this route, and every name it
   * passes on is at least two characters long.
   */
  lemma ParsedNamesCity(b: PresencaBody)
    ensures var r := ParseBody(b);
      r.Ok? ==> (
        (r.value.cidadeId.Some? || Truthy(r.value.cidadeNome)) &&
        |r.value.funcaoMinisterio| >= 2 &&
        (r.value.cidadeNome.Some? ==> |r.value.cidadeNome.value| >= 2) &&
        (r.value.instrumentoNome.Some? ==> |r.value.instrumentoNome.value| >= 2))
  {
  }

  /** What the route sends: the service's result with 201, a `{ message }` with 400, or the global handler's reply. */
  datatype Reply =
    | Created(message: string, id: Id)
    | BadRequest(message: string)
    | Handled(error: ErrorReply)

  function Status(reply: Reply): int
  {
    match reply
    case Created(_, _) => 201
    case BadRequest(_) => 400
    case Handled(e) => e.statusCode
  }

  const Registered_ := "Presença registrada com sucesso"

  /**
   * The `catch` as written: a message containing "não vinculado", "não
   * encontrado" or "inválido" is a 400 with that message; anything else is
   * rethrown to the global handler.
   */
  function CaughtAsWritten(f: Failure, production: bool): Reply
  {
    if f.Thrown? && (Contains(f.message, "não vinculado") || Contains(f.message, "não encontrado") || Contains(f.message, "inválido"))
    then BadRequest(f.message)
    else Handled(GlobalErrorHandler(f, production))
  }

  /**
   * The `catch` as intended: every business error of the service is a 400 with
   * its message; only a failure of the database goes to the global handler.
   */
  function Caught(e: RegError, production: bool): (reply: Reply)
    ensures !e.InsertFailed? ==> reply == BadRequest(Message(e)) && Status(reply) == 400
    ensures e.InsertFailed? ==> reply == Handled(GlobalErrorHandler(e.failure, production))
  {
    if e.InsertFailed? then Handled(GlobalErrorHandler(e.failure, production)) else BadRequest(Message(e))
  }

  /** The substrings the `catch` looks for and those the handler maps, all absent. */
  predicate Unmatched(m: string)
  {
    !Contains(m, "não vinculado") && !Contains(m, "não encontrado") && !Contains(m, "inválido") &&
    !Contains(m, "not found") && !Contains(m, "invalid") && !Contains(m, "obrigatória") && !Contains(m, "required") &&
    !Contains(m, "already exists") && !Contains(m, "duplicado") &&
    !Contains(m, "Unauthorized") && !Contains(m, "não autorizado") &&
    !Contains(m, "Forbidden") && !Contains(m, "sem permissão")
  }

  /**
   * As written, a thrown message that neither the `catch` nor the handler
   * recognises is a 500, whose message is replaced in production.
   */
  lemma UnmatchedIsInternal(m: string, production: bool)
    requires m != "" && Unmatched(m)
    ensures var reply := CaughtAsWritten(Raise(m), production);
      reply.Handled? && Status(reply) == 500 && (production ==> reply.error.message == "Erro interno do servidor")
  {
  }

  /** Characters whose absence keeps "no active event" clear of every pattern. */
  predicate NoActiveEventLacks(m: string)
  {
    'ã' !in m && 'f' !in m && 'l' !in m && 'b' !in m && 'q' !in m && 'z' !in m
  }

  lemma NoActiveEventHalves()
    ensures Message(NoActiveEvent) == "Nenhum evento ativo encontrado " + "para registro no momento."
  {
  }

  lemma NoActiveEventFirstHalf()
    ensures "Nenhum evento ativo encontrado " == "Nenhum evento " + "ativo " + "encontrado "
  {
  }

  lemma NoActiveEventSecondHalf()
    ensures "para registro no momento." == "para registro " + "no momento."
  {
  }

  lemma NoActiveEventPiece1()
    ensures NoActiveEventLacks("Nenhum evento ")
  {
  }

  lemma NoActiveEventPiece2()
    ensures NoActiveEventLacks("ativo ")
  {
  }

  lemma NoActiveEventPiece3()
    ensures NoActiveEventLacks("encontrado ")
  {
  }

  lemma NoActiveEventPiece4()
    ensures NoActiveEventLacks("para registro ")
  {
  }

  lemma NoActiveEventPiece5()
    ensures NoActiveEventLacks("no momento.")
  {
  }

  lemma NoActiveEventUnmatched()
    ensures Unmatched(Message(NoActiveEvent))
  {
    NoActiveEventHalves();
    NoActiveEventFirstHalf();
    NoActiveEventSecondHalf();
    NoActiveEventPiece1();
    NoActiveEventPiece2();
    NoActiveEventPiece3();
    NoActiveEventPiece4();
    NoActiveEventPiece5();
    NoActiveEventLacksUnmatched(Message(NoActiveEvent));
  }

  lemma NoActiveEventLacksUnmatched(m: string)
    requires NoActiveEventLacks(m)
    ensures Unmatched(m)
  {
    AbsentChar(m, "não vinculado", 'ã');
    AbsentChar(m, "não encontrado", 'ã');
    AbsentChar(m, "inválido", 'l');
    AbsentChar(m, "not found", 'f');
    AbsentChar(m, "invalid", 'l');
    AbsentChar(m, "obrigatória", 'b');
    AbsentChar(m, "required", 'q');
    AbsentChar(m, "already exists", 'l');
    AbsentChar(m, "duplicado", 'l');
    AbsentChar(m, "Unauthorized", 'z');
    AbsentChar(m, "não autorizado", 'ã');
    AbsentChar(m, "Forbidden", 'b');
    AbsentChar(m, "sem permissão", 'ã');
  }

  /** Characters whose absence keeps "the event is inactive" clear of every pattern. */
  predicate InactiveLacks(m: string)
  {
    'd' !in m && 'r' !in m
  }

  lemma InactivePiece()
    ensures InactiveLacks(Message(EventInactive))
  {
  }

  lemma InactiveUnmatched()
    ensures Unmatched(Message(EventInactive))
  {
    InactivePiece();
    InactiveLacksUnmatched(Message(EventInactive));
  }

  lemma InactiveLacksUnmatched(m: string)
    requires InactiveLacks(m)
    ensures Unmatched(m)
  {
    AbsentChar(m, "não vinculado", 'd');
    AbsentChar(m, "não encontrado", 'd');
    AbsentChar(m, "inválido", 'd');
    AbsentChar(m, "not found", 'd');
    AbsentChar(m, "invalid", 'd');
    AbsentChar(m, "obrigatória", 'r');
    AbsentChar(m, "required", 'r');
    AbsentChar(m, "already exists", 'r');
    AbsentChar(m, "duplicado", 'd');
    AbsentChar(m, "Unauthorized", 'r');
    AbsentChar(m, "não autorizado", 'r');
    AbsentChar(m, "Forbidden", 'r');
    AbsentChar(m, "sem permissão", 'r');
  }

  /** Characters whose absence keeps "the registration window has closed" clear of every pattern. */
  predicate ClosedWindowLacks(m: string)
  {
    'ã' !in m && 'l' !in m && 'u' !in m && 'b' !in m
  }

  lemma ClosedWindowHalves()
    ensures Message(WindowClosed) == "O período de registro para " + "este evento já foi encerrado."
  {
  }

  lemma ClosedWindowFirstHalf()
    ensures "O período de registro para " == "O período de " + "registro para "
  {
  }

  lemma ClosedWindowSecondHalf()
    ensures "este evento já foi encerrado." == "este evento já " + "foi encerrado."
  {
  }

  lemma ClosedWindowPiece1()
    ensures ClosedWindowLacks("O período de ")
  {
  }

  lemma ClosedWindowPiece2()
    ensures ClosedWindowLacks("registro para ")
  {
  }

  lemma ClosedWindowPiece3()
    ensures ClosedWindowLacks("este evento já ")
  {
  }

  lemma ClosedWindowPiece4()
    ensures ClosedWindowLacks("foi encerrado.")
  {
  }

  lemma ClosedWindowUnmatched()
    ensures Unmatched(Message(WindowClosed))
  {
    ClosedWindowHalves();
    ClosedWindowFirstHalf();
    ClosedWindowSecondHalf();
    ClosedWindowPiece1();
    ClosedWindowPiece2();
    ClosedWindowPiece3();
    ClosedWindowPiece4();
    ClosedWindowLacksUnmatched(Message(WindowClosed));
  }

  lemma ClosedWindowLacksUnmatched(m: string)
    requires ClosedWindowLacks(m)
    ensures Unmatched(m)
  {
    AbsentChar(m, "não vinculado", 'ã');
    AbsentChar(m, "não encontrado", 'ã');
    AbsentChar(m, "inválido", 'l');
    AbsentChar(m, "not found", 'u');
    AbsentChar(m, "invalid", 'l');
    AbsentChar(m, "obrigatória", 'b');
    AbsentChar(m, "required", 'u');
    AbsentChar(m, "already exists", 'l');
    AbsentChar(m, "duplicado", 'l');
    AbsentChar(m, "Unauthorized", 'u');
    AbsentChar(m, "não autorizado", 'ã');
    AbsentChar(m, "Forbidden", 'b');
    AbsentChar(m, "sem permissão", 'ã');
  }

  /**
   * As written, "no active event", "inactive" and "closed window" reach the
   * handler and come back as a 500 (hidden in production), where the service
   * means a 400.
   */
  lemma BusinessErrorsAreInternal(production: bool)
    ensures forall e | e in {NoActiveEvent, EventInactive, WindowClosed} ::
      var reply := CaughtAsWritten(AsFailure(e), production);
      Status(reply) == 500 && Status(Caught(e, production)) == 400 &&
      (production ==> reply.error.message == "Erro interno do servidor")
  {
    NoActiveEventUnmatched();
    UnmatchedIsInternal(Message(NoActiveEvent), production);
    InactiveUnmatched();
    UnmatchedIsInternal(Message(EventInactive), production);
    ClosedWindowUnmatched();
    UnmatchedIsInternal(Message(WindowClosed), production);
  }

  /**
   * The intended reply keeps every 400 the written one gives for a business
   * error, with the same message, and turns every other business error into a
   * 400 as well.
   */
  lemma CaughtKeepsBadRequests(e: RegError, production: bool)
    requires !e.InsertFailed?
    ensures CaughtAsWritten(AsFailure(e), production).BadRequest? ==> Caught(e, production) == CaughtAsWritten(AsFailure(e), production)
    ensures Status(Caught(e, production)) == 400 && Caught(e, production).message == Message(e)
  {
  }

  /**
   * `POST /presenca`: a body the schema rejects is the handler's 400 and the
   * service is not called; otherwise the service runs for the token's user and
   * tenant, success is a 201 with the new record's id, and an error is answered
   * by `Caught`.
   */
  method CreateRoute(db: Database, body: PresencaBody, userId: Id, tenant: Id, now: Time, startText: Time -> string, production: bool,
                     cityFails: Option<Failure>, instrumentFails: Option<Failure>) returns (reply: Reply)
    requires TableValid(db.cidades, db.nextId) && TableValid(db.instrumentos, db.nextId)
    modifies db`cidades, db`instrumentos, db`registros, db`nextId
    ensures TableValid(db.cidades, db.nextId) && TableValid(db.instrumentos, db.nextId)
    ensures ParseBody(body).Err? ==>
      reply == Handled(GlobalErrorHandler(ZodFailure(ParseBody(body).error), production)) && Status(reply) == 400 &&
      db.cidades == old(db.cidades) && db.instrumentos == old(db.instrumentos) &&
      db.registros == old(db.registros) && db.nextId == old(db.nextId)
    ensures ParseBody(body).Ok? ==>
      var out := Registered(db.users, db.eventos, db.convocacoes, old(Tables(db.cidades, db.instrumentos, db.registros, db.nextId)),
                            userId, tenant, ParseBody(body).value, now, startText, cityFails, instrumentFails);
      (out.Ok? ==> reply == Created(Registered_, out.value.1)) &&
      (out.Err? ==> reply == Caught(out.error, production))
  {
    var parsed := ParseBody(body);
    if parsed.Err? {
      return Handled(GlobalErrorHandler(ZodFailure(parsed.error), production));
    }
    var r := Create(db, userId, tenant, parsed.value, now, startText, cityFails, instrumentFails);
    if r.Ok? {
      reply := Created(Registered_, r.value);
    } else {
      reply := Caught(r.error, production);
    }
  }

  /**
   * `POST /presenca` as the controller is written: the same route, with the
   * service's errors answered by `CaughtAsWritten`, so that "no active event",
   * "inactive" and "closed window" come back as 500s (`BusinessErrorsAreInternal`).
   */
  method CreateRouteAsWritten(db: Database, body: PresencaBody, userId: Id, tenant: Id, now: Time, startText: Time -> string, production: bool,
                              cityFails: Option<Failure>, instrumentFails: Option<Failure>) returns (reply: Reply)
    requires TableValid(db.cidades, db.nextId) && TableValid(db.instrumentos, db.nextId)
    modifies db`cidades, db`instrumentos, db`registros, db`nextId
    ensures TableValid(db.cidades, db.nextId) && TableValid(db.instrumentos, db.nextId)
    ensures ParseBody(body).Err? ==>
      reply == Handled(GlobalErrorHandler(ZodFailure(ParseBody(body).error), production)) && Status(reply) == 400 &&
      db.cidades == old(db.cidades) && db.instrumentos == old(db.instrumentos) &&
      db.registros == old(db.registros) && db.nextId == old(db.nextId)
    ensures ParseBody(body).Ok? ==>
      var out := Registered(db.users, db.eventos, db.convocacoes, old(Tables(db.cidades, db.instrumentos, db.registros, db.nextId)),
                            userId, tenant, ParseBody(body).value, now, startText, cityFails, instrumentFails);
      (out.Ok? ==> reply == Created(Registered_, out.value.1)) &&
      (out.Err? ==> reply == CaughtAsWritten(AsFailure(out.error), production)) &&
      (out.Err? && out.error in {NoActiveEvent, EventInactive, WindowClosed} ==> Status(reply) == 500)
  {
    var parsed := ParseBody(body);
    if parsed.Err? {
      return Handled(GlobalErrorHandler(ZodFailure(parsed.error), production));
    }
    var r := Create(db, userId, tenant, parsed.value, now, startText, cityFails, instrumentFails);
    if r.Ok? {
      reply := Created(Registered_, r.value);
    } else {
      reply := CaughtAsWritten(AsFailure(r.error), production);
      BusinessErrorsAreInternal(production);
    }
  }
}
