/**
 * `globalErrorHandler` (backend/src/infra/http/error-handler.ts): the status
 * and body the server sends for an error no route handled. Validation errors
 * come first; any other error is classified by case-sensitive substring
 * matches on its message, in a fixed order, and falls back to 500.
 */
module ErrorMapping {
  import opened Wrappers
  import opened Text

  /** What reaches the handler: a zod error, a Fastify validation error, or any other thrown error. */
  datatype Failure =
    | ZodFailure(issues: seq<string>)
    | ValidationFailure(message: string)
    | Thrown(message: string, code: Option<string>, stack: string)

  /** `new Error(message)`: no code; the stack trace is not modelled. */
  function Raise(message: string): Failure
  {
    Thrown(message, None, "")
  }

  datatype ErrorReply = ErrorReply(statusCode: int, error: string, message: string, issues: seq<string>, stack: Option<string>)

  /** `error.message || 'Internal Server Error'`. */
  function MessageOrDefault(message: string): string
  {
    if message != "" then message else "Internal Server Error"
  }

  /** The message rules of the handler, each a list of substrings and the status they select. */
  const Rules: seq<(seq<string>, int)> := [
    (["não encontrado", "not found"], 404),
    (["inválido", "invalid", "obrigatória", "required"], 400),
    (["already exists", "duplicado"], 409),
    (["Unauthorized", "não autorizado"], 401),
    (["Forbidden", "sem permissão"], 403)
  ]

  predicate ContainsAny(message: string, patterns: seq<string>)
  {
    exists p | p in patterns :: Contains(message, p)
  }

  /** The if-chain of the handler on a message and an error code. */
  function StatusFor(message: string, code: Option<string>): int
  {
    if Contains(message, "não encontrado") || Contains(message, "not found") then 404
    else if Contains(message, "inválido") || Contains(message, "invalid") || Contains(message, "obrigatória") || Contains(message, "required") then 400
    else if Contains(message, "already exists") || Contains(message, "duplicado") || code == Some("P2002") then 409
    else if Contains(message, "Unauthorized") || Contains(message, "não autorizado") then 401
    else if Contains(message, "Forbidden") || Contains(message, "sem permissão") then 403
    else 500
  }

  /** The status the first rule whose patterns the message contains selects, else 500. */
  function FirstRule(rules: seq<(seq<string>, int)>, message: string): int
  {
    if rules == [] then 500
    else if ContainsAny(message, rules[0].0) then rules[0].1
    else FirstRule(rules[1..], message)
  }

  /**
   * The if-chain is the rule table read top to bottom, first match wins; the
   * only exception is the `P2002` code, which selects 409 when no earlier rule matched.
   */
  lemma StatusIsFirstRule(message: string, code: Option<string>)
    ensures code != Some("P2002") ==> StatusFor(message, code) == FirstRule(Rules, message)
    ensures code == Some("P2002") ==>
      StatusFor(message, code) == (if ContainsAny(message, Rules[0].0) || ContainsAny(message, Rules[1].0) then FirstRule(Rules, message) else 409)
  {
    FirstRuleOfFive(Rules[0], Rules[1], Rules[2], Rules[3], Rules[4], message);
    ContainsAnyPair(message, "não encontrado", "not found");
    ContainsAnyFour(message, "inválido", "invalid", "obrigatória", "required");
    ContainsAnyPair(message, "already exists", "duplicado");
    ContainsAnyPair(message, "Unauthorized", "não autorizado");
    ContainsAnyPair(message, "Forbidden", "sem permissão");
  }

  lemma FirstRuleOfFive(a: (seq<string>, int), b: (seq<string>, int), c: (seq<string>, int), d: (seq<string>, int), e: (seq<string>, int), m: string)
    ensures FirstRule([a, b, c, d, e], m) ==
      if ContainsAny(m, a.0) then a.1 else if ContainsAny(m, b.0) then b.1 else if ContainsAny(m, c.0) then c.1
      else if ContainsAny(m, d.0) then d.1 else if ContainsAny(m, e.0) then e.1 else 500
  {
    assert [e][1..] == [];
    assert FirstRule([e], m) == if ContainsAny(m, e.0) then e.1 else 500;
    assert [d, e][1..] == [e];
    assert FirstRule([d, e], m) == if ContainsAny(m, d.0) then d.1 else FirstRule([e], m);
    assert [c, d, e][1..] == [d, e];
    assert FirstRule([c, d, e], m) == if ContainsAny(m, c.0) then c.1 else FirstRule([d, e], m);
    assert [b, c, d, e][1..] == [c, d, e];
    assert FirstRule([b, c, d, e], m) == if ContainsAny(m, b.0) then b.1 else FirstRule([c, d, e], m);
    assert [a, b, c, d, e][1..] == [b, c, d, e];
  }

  lemma ContainsAnyPair(m: string, p: string, q: string)
    ensures ContainsAny(m, [p, q]) <==> Contains(m, p) || Contains(m, q)
  {
    assert p in [p, q] && q in [p, q];
  }

  lemma ContainsAnyFour(m: string, p: string, q: string, r: string, t: string)
    ensures ContainsAny(m, [p, q, r, t]) <==> Contains(m, p) || Contains(m, q) || Contains(m, r) || Contains(m, t)
  {
    assert p in [p, q, r, t] && q in [p, q, r, t] && r in [p, q, r, t] && t in [p, q, r, t];
  }

  /**
   * The handler's reply. A zod error is a 400 with its issues; a Fastify
   * validation error a 400 with its message; a known message its rule's status;
   * anything else a 500, whose message and stack are hidden in production.
   */
  function GlobalErrorHandler(f: Failure, production: bool): (r: ErrorReply)
    ensures f.ZodFailure? ==> r == ErrorReply(400, "Bad Request", "Validation Error", f.issues, None)
    ensures f.ValidationFailure? ==> r.statusCode == 400 && r.message == f.message
    ensures f.Thrown? ==> r.statusCode == StatusFor(MessageOrDefault(f.message), f.code)
    ensures r.statusCode in {400, 401, 403, 404, 409, 500}
    ensures r.statusCode == 500 ==> f.Thrown? && (production <==> r.message == "Erro interno do servidor" && r.stack.None?)
  {
    match f
    case ZodFailure(issues) => ErrorReply(400, "Bad Request", "Validation Error", issues, None)
    case ValidationFailure(message) => ErrorReply(400, "Bad Request", message, [], None)
    case Thrown(message, code, stack) =>
      var m := MessageOrDefault(message);
      var status := StatusFor(m, code);
      if status == 404 then ErrorReply(404, "Not Found", m, [], None)
      else if status == 400 then ErrorReply(400, "Bad Request", m, [], None)
      else if status == 409 then ErrorReply(409, "Conflict", "Registro duplicado ou conflito de dados.", [], None)
      else if status == 401 then ErrorReply(401, "Unauthorized", m, [], None)
      else if status == 403 then ErrorReply(403, "Forbidden", m, [], None)
      else if production then ErrorReply(500, "Internal Server Error", "Erro interno do servidor", [], None)
      else ErrorReply(500, "Internal Server Error", m, [], Some(stack))
  }
}
