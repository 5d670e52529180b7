/**
 * The backend's database as the services see it: one table per Prisma model,
 * each a sequence of rows in insertion order, held by one `Database` object
 * that every service updates in place. Timestamps are milliseconds; the
 * generated uuid keys are natural numbers drawn from a counter.
 */
module Store {
  import opened Wrappers

  type Id = nat
  type Time = int

  datatype Role = SUPERADMIN | ADMIN_REGIONAL | ADMIN | USER

  /** A bcrypt hash stands for the password it was computed from; `compare` succeeds on that password only. */
  datatype PasswordHash = Bcrypt(password: string)

  /** A refresh token as the client holds it: one the server minted with `randomUUID`, or any other cookie text. */
  datatype RawToken = Minted(serial: nat) | Other(text: string)

  /** The SHA-256 digest of a raw token, injective as the model assumes of SHA-256. */
  datatype Digest = Sha256(raw: RawToken)

  datatype User = User(
    id: Id, tenantId: Id, name: string, email: string, passwordHash: PasswordHash,
    role: Role, acessoLiberado: bool, ensaioRegionalId: Option<Id>,
    regionalId: Option<Id>, userRegionais: seq<Id>, deletedAt: Option<Time>)

  datatype RefreshToken = RefreshToken(
    id: Id, userId: Id, tenantId: Id, tokenHash: Digest, expiresAt: Time, revokedAt: Option<Time>)

  /** An `EnsaioRegional` row: a rehearsal event with its registration window. */
  datatype Evento = Evento(
    id: Id, tenantId: Id, nome: string, dataEvento: Time,
    dataHoraInicio: Option<Time>, dataHoraFim: Option<Time>,
    dataInicio: Option<Time>, dataFim: Option<Time>,
    ativo: bool, modoConvocacao: bool,
    anciaoAtendimento: Option<string>, regionalRegente: Option<string>, regionalRegente2: Option<string>,
    regionalPrincipal: Option<string>, regionalSecundario: Option<string>,
    tipoResponsavelPrincipal: string, tipoResponsavelSecundario: string,
    localEvento: Option<string>, cidadeEvento: Option<string>,
    regionalId: Option<Id>, deletedAt: Option<Time>)

  /** An `EventoUsuario` row: a user summoned to an event; (ensaioRegionalId, userId) is unique. */
  datatype Convocacao = Convocacao(ensaioRegionalId: Id, userId: Id, tenantId: Id, convocado: bool)

  /** A row of the tables with a soft delete and a (tenantId, nome) unique key: cities, instruments, functions. */
  datatype Row<X> = Row(id: Id, tenantId: Id, nome: string, extra: X, deletedAt: Option<Time>)

  /** The extra columns of a city row. */
  datatype CityNames = CityNames(nomeCidade: Option<string>, nomeBairro: Option<string>, nomeExibicao: Option<string>)

  type Cidade = Row<CityNames>
  type Instrumento = Row<()>
  type Funcao = Row<()>

  /** A `RegistroPresenca` row: one attendance record. */
  datatype Registro = Registro(
    id: Id, tenantId: Id, userId: Id, ensaioRegionalId: Id, funcaoMinisterio: string,
    cidadeId: Id, instrumentoId: Option<Id>, instrumentoOutro: Option<string>, createdAt: Time)

  datatype Regional = Regional(id: Id, tenantId: Id, nome: string, setor: Option<string>, ativo: bool)

  class Database {
    var users: seq<User>
    var tokens: seq<RefreshToken>
    var eventos: seq<Evento>
    var convocacoes: seq<Convocacao>
    var cidades: seq<Cidade>
    var instrumentos: seq<Instrumento>
    var funcoes: seq<Funcao>
    var registros: seq<Registro>
    var regionais: seq<Regional>
    /** The next generated key. */
    var nextId: nat
    /** The serial of the next token `randomUUID` returns. */
    var minted: nat

    /** No stored token hash is that of a token not minted yet, so every newly minted token is unknown. */
    ghost predicate Valid()
      reads this
    {
      forall i | 0 <= i < |tokens| :: tokens[i].tokenHash.raw.Minted? ==> tokens[i].tokenHash.raw.serial < minted
    }

    constructor ()
      ensures Valid()
      ensures users == [] && tokens == [] && eventos == [] && convocacoes == [] && cidades == []
      ensures instrumentos == [] && funcoes == [] && registros == [] && regionais == []
      ensures nextId == 0 && minted == 0
    {
      users, tokens, eventos, convocacoes, cidades := [], [], [], [], [];
      instrumentos, funcoes, registros, regionais := [], [], [], [];
      nextId, minted := 0, 0;
    }
  }

  // ---------------------------------------------------------------- queries

  /** `findFirst`: the position of the first row, in table order, that satisfies `p`. */
  function FirstWhere<T>(s: seq<T>, p: T -> bool): (r: Option<nat>)
    ensures r.Some? ==> r.value < |s| && p(s[r.value]) && forall j | 0 <= j < r.value :: !p(s[j])
    ensures r.None? ==> forall j | 0 <= j < |s| :: !p(s[j])
    decreases |s|
  {
    if s == [] then None
    else if p(s[0]) then Some(0)
    else
      var rest := FirstWhere(s[1..], p);
      if rest.None? then None else Some(rest.value + 1)
  }

  /** `findFirst` finds position `i` when the row there matches and no earlier one does. */
  lemma FirstWhereAt<T>(s: seq<T>, p: T -> bool, i: nat)
    requires i < |s| && p(s[i]) && forall j | 0 <= j < i :: !p(s[j])
    ensures FirstWhere(s, p) == Some(i)
  {
  }

  /** Two tables whose rows agree on `p` position by position give the same `findFirst` answer. */
  lemma FirstWhereAgree<T>(s: seq<T>, s': seq<T>, p: T -> bool)
    requires |s| == |s'| && forall j | 0 <= j < |s| :: p(s[j]) == p(s'[j])
    ensures FirstWhere(s, p) == FirstWhere(s', p)
  {
    var r := FirstWhere(s, p);
    if r.Some? {
      FirstWhereAt(s', p, r.value);
    }
  }

  /** Appending rows does not change a `findFirst` that already succeeds, and one that fails looks only at the new rows. */
  lemma FirstWhereAppend<T>(s: seq<T>, t: seq<T>, p: T -> bool)
    ensures FirstWhere(s, p).Some? ==> FirstWhere(s + t, p) == FirstWhere(s, p)
    ensures FirstWhere(s, p).None? ==>
      (FirstWhere(t, p).None? <==> FirstWhere(s + t, p).None?) &&
      (FirstWhere(t, p).Some? ==> FirstWhere(s + t, p) == Some(|s| + FirstWhere(t, p).value))
  {
    if FirstWhere(s, p).Some? {
      SomeAppend(s, t, p);
    } else if FirstWhere(t, p).Some? {
      AppendSome(s, t, p);
    } else {
      NoneAppend(s, t, p);
    }
  }

  lemma SomeAppend<T>(s: seq<T>, t: seq<T>, p: T -> bool)
    requires FirstWhere(s, p).Some?
    ensures FirstWhere(s + t, p) == FirstWhere(s, p)
  {
    var i := FirstWhere(s, p).value;
    assert forall j | 0 <= j <= i :: (s + t)[j] == s[j];
    FirstWhereAt(s + t, p, i);
  }

  lemma AppendSome<T>(s: seq<T>, t: seq<T>, p: T -> bool)
    requires FirstWhere(s, p).None? && FirstWhere(t, p).Some?
    ensures FirstWhere(s + t, p) == Some(|s| + FirstWhere(t, p).value)
  {
    var k := FirstWhere(t, p).value;
    var u := s + t;
    forall j | 0 <= j < |s| + k ensures !p(u[j]) {
      if j < |s| {
        assert u[j] == s[j];
      } else {
        assert u[j] == t[j - |s|];
      }
    }
    assert u[|s| + k] == t[k];
    FirstWhereAt(u, p, |s| + k);
  }

  lemma NoneAppend<T>(s: seq<T>, t: seq<T>, p: T -> bool)
    requires FirstWhere(s, p).None? && FirstWhere(t, p).None?
    ensures FirstWhere(s + t, p).None?
  {
    forall j | 0 <= j < |s + t| ensures !p((s + t)[j]) {
      if j >= |s| {
        assert (s + t)[j] == t[j - |s|];
      }
    }
  }

  /** `count`: how many rows satisfy `p`. */
  function CountWhere<T>(s: seq<T>, p: T -> bool): (n: nat)
    ensures n <= |s|
    ensures n == 0 <==> forall j | 0 <= j < |s| :: !p(s[j])
    decreases |s|
  {
    if s == [] then 0 else (if p(s[0]) then 1 else 0) + CountWhere(s[1..], p)
  }

  /** `findMany`: the rows that satisfy `p`, in table order. */
  function Where<T>(s: seq<T>, p: T -> bool): (r: seq<T>)
    ensures |r| == CountWhere(s, p)
    ensures forall x | x in r :: x in s && p(x)
    ensures forall j | 0 <= j < |s| && p(s[j]) :: s[j] in r
    decreases |s|
  {
    if s == [] then []
    else if p(s[0]) then [s[0]] + Where(s[1..], p)
    else Where(s[1..], p)
  }

  /** `findMany` over two tables appended is the two answers appended. */
  lemma {:induction false} WhereAppend<T>(s: seq<T>, t: seq<T>, p: T -> bool)
    ensures Where(s + t, p) == Where(s, p) + Where(t, p)
    decreases |s|
  {
    if s == [] {
      assert s + t == t;
    } else {
      assert (s + t)[1..] == s[1..] + t;
      WhereAppend(s[1..], t, p);
    }
  }

  /** `findMany` returns the whole table when every row matches. */
  lemma {:induction false} WhereAll<T>(s: seq<T>, p: T -> bool)
    requires forall j | 0 <= j < |s| :: p(s[j])
    ensures Where(s, p) == s
    decreases |s|
  {
    if s != [] {
      WhereAll(s[1..], p);
    }
  }

  /** `findMany` finds nothing when no row matches. */
  lemma WhereNone<T>(s: seq<T>, p: T -> bool)
    requires forall j | 0 <= j < |s| :: !p(s[j])
    ensures Where(s, p) == []
  {
  }

  /** Counting over two tables appended is the sum of the counts. */
  lemma {:induction false} CountAppend<T>(s: seq<T>, t: seq<T>, p: T -> bool)
    ensures CountWhere(s + t, p) == CountWhere(s, p) + CountWhere(t, p)
    decreases |s|
  {
    if s != [] {
      assert (s + t)[1..] == s[1..] + t;
      CountAppend(s[1..], t, p);
    } else {
      assert s + t == t;
    }
  }

  /** Counting a non-empty sequence: the count of all but the last row, plus the last row's share. */
  lemma CountLast<T>(s: seq<T>, p: T -> bool)
    requires s != []
    ensures CountWhere(s, p) == CountWhere(s[..|s| - 1], p) + (if p(s[|s| - 1]) then 1 else 0)
  {
    var init, x := s[..|s| - 1], s[|s| - 1];
    assert s == init + [x];
    CountAppend(init, [x], p);
  }

  /**
   * Replacing one row changes a count by at most one: it goes down by one when
   * the old row satisfied `p` and the new one does not, and so on.
   */
  lemma {:induction false} CountUpdate<T>(s: seq<T>, i: nat, x: T, p: T -> bool)
    requires i < |s|
    ensures CountWhere(s[i := x], p) + (if p(s[i]) then 1 else 0) == CountWhere(s, p) + (if p(x) then 1 else 0)
    decreases |s|
  {
    if i > 0 {
      assert s[i := x][1..] == s[1..][i - 1 := x];
      CountUpdate(s[1..], i - 1, x, p);
    } else {
      assert s[i := x][1..] == s[1..];
    }
  }

  /** The prefix of length `i + 1` is the prefix of length `i` and the element at `i`. */
  lemma PrefixStep<T>(s: seq<T>, i: nat)
    requires i < |s|
    ensures s[..i + 1] == s[..i] + [s[i]]
  {
  }

  /** A non-empty sequence is its prefix without the last element, then that element. */
  lemma LastSplit<T>(s: seq<T>)
    requires s != []
    ensures s == s[..|s| - 1] + [s[|s| - 1]]
  {
  }
}
