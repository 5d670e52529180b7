/**
 * `CidadeService` (backend/src/application/services/cidade.service.ts) over the
 * city table: a city is keyed by its display name "CIDADE" or
 * "CIDADE - BAIRRO", built from the normalised parts, and that display name is
 * the row's `nome` (backend/src/infra/repositories/cidade.repository.ts:5-15).
 */
module Cities {
  import opened Wrappers
  import opened Store
  import opened Text
  import opened ErrorMapping
  import opened Catalog

  const DashMessage: string := "Nome da cidade não pode conter o caractere \"-\""
  const ExistsMessage: string := "Cidade with this name already exists"

  /** The normalised city, the normalised neighbourhood when one was given, and the display name. */
  datatype CityKey = CityKey(cidade: string, bairro: Option<string>, exibicao: string)

  /** The key `create` and `update` compute from the request. */
  function KeyOf(nomeCidade: string, nomeBairro: Option<string>): CityKey
  {
    var cidade := NormalizeName(nomeCidade);
    var bairro := if Truthy(nomeBairro) then Some(NormalizeName(nomeBairro.value)) else None;
    CityKey(cidade, bairro, if Truthy(bairro) then cidade + " - " + bairro.value else cidade)
  }

  /** The columns `create` stores: `nome` is the display name, kept in sync with `nomeExibicao`. */
  function NewRow(id: Id, tenant: Id, k: CityKey): Cidade
  {
    Row(id, tenant, k.exibicao, CityNames(Some(k.cidade), k.bairro, Some(k.exibicao)), None)
  }

  /** `findOrCreateByName` and the CSV import: a "CIDADE - BAIRRO" text splits into its first two segments, trimmed. */
  function NameParts(raw: string): (r: (string, Option<string>))
    ensures !Contains(raw, " - ") ==> r == (raw, None)
  {
    if Contains(raw, " - ") then
      var parts := Split(raw, " - ");
      assert |parts| > 1;
      (Trim(parts[0]), Some(Trim(parts[1])))
    else (raw, None)
  }

  /**
   * A stored display name, given back to `findOrCreateByName`, leads to the same
   * key: the city part holds no '-', and the neighbourhood no " - ".
   */
  lemma DisplayNameRoundTrip(nomeCidade: string, nomeBairro: Option<string>)
    requires '-' !in KeyOf(nomeCidade, nomeBairro).cidade
    requires Truthy(KeyOf(nomeCidade, nomeBairro).bairro) ==> !Contains(KeyOf(nomeCidade, nomeBairro).bairro.value, " - ")
    ensures var k := KeyOf(nomeCidade, nomeBairro);
      var (c, b) := NameParts(k.exibicao);
      KeyOf(c, b).exibicao == k.exibicao && KeyOf(c, b).cidade == k.cidade
  {
    var k := KeyOf(nomeCidade, nomeBairro);
    NormalizeNameIdempotent(nomeCidade);
    if Truthy(k.bairro) {
      NormalizeNameIdempotent(nomeBairro.value);
      SplitPair(k.cidade, k.bairro.value);
      assert OccursAt(k.exibicao, " - ", |k.cidade|) by {
        assert k.exibicao[|k.cidade|..|k.cidade| + 3] == " - ";
      }
    } else {
      AbsentChar(k.cidade, " - ", '-');
    }
  }

  /**
   * `create`: rejects a city name with '-', then resolves the display name in
   * the tenant: a live row is returned unchanged, a soft-deleted one restored
   * with the same id, and otherwise one row is inserted. When the insert meets a
   * row another request committed (`P2002`), the lookup runs again on the table
   * as it now is; any other insert failure is rethrown and nothing changes.
   */
  method Create(db: Database, nomeCidade: string, nomeBairro: Option<string>, tenant: Id, ins: Insertion<CityNames>)
    returns (r: Result<Cidade, Failure>)
    requires TableValid(db.cidades, db.nextId)
    requires ins.Commit? ==> TableValid(db.cidades + ins.concurrent, db.nextId)
    modifies db`cidades, db`nextId
    ensures TableValid(db.cidades, db.nextId)
    ensures var k := KeyOf(nomeCidade, nomeBairro);
      '-' in k.cidade ==> r == Err(Raise(DashMessage)) && db.cidades == old(db.cidades) && db.nextId == old(db.nextId)
    ensures var k := KeyOf(nomeCidade, nomeBairro);
      '-' !in k.cidade && FindByKey(old(db.cidades), tenant, k.exibicao).Some? ==>
      var (t, i) := Resolve(old(db.cidades), tenant, k.exibicao, NewRow(old(db.nextId), tenant, k));
      db.cidades == t && r == Ok(t[i]) && db.nextId == old(db.nextId)
    ensures var k := KeyOf(nomeCidade, nomeBairro);
      '-' !in k.cidade && FindByKey(old(db.cidades), tenant, k.exibicao).None? && ins.Commit? ==>
      var (t, i) := Resolve(old(db.cidades) + ins.concurrent, tenant, k.exibicao, NewRow(old(db.nextId), tenant, k));
      db.cidades == t && r == Ok(t[i]) &&
      db.nextId == (if |t| > |old(db.cidades) + ins.concurrent| then old(db.nextId) + 1 else old(db.nextId))
    ensures var k := KeyOf(nomeCidade, nomeBairro);
      '-' !in k.cidade && FindByKey(old(db.cidades), tenant, k.exibicao).None? && ins.Fails? ==>
      r == Err(ins.failure) && db.cidades == old(db.cidades) && db.nextId == old(db.nextId)
  {
    var k := KeyOf(nomeCidade, nomeBairro);
    if '-' in k.cidade {
      return Err(Raise(DashMessage));
    }
    var t, next, res := FindOrInsert(db.cidades, db.nextId, tenant, k.exibicao, NewRow(db.nextId, tenant, k), ins);
    db.cidades, db.nextId, r := t, next, res;
  }

  /** `findOrCreateByName`: `create` on the parts of a "CIDADE - BAIRRO" text. */
  method FindOrCreateByName(db: Database, raw: string, tenant: Id, ins: Insertion<CityNames>) returns (r: Result<Cidade, Failure>)
    requires TableValid(db.cidades, db.nextId)
    requires ins.Commit? ==> TableValid(db.cidades + ins.concurrent, db.nextId)
    modifies db`cidades, db`nextId
    ensures TableValid(db.cidades, db.nextId)
    ensures r.Ok? ==> r.value.tenantId == tenant && Live(r.value) && r.value.nome == KeyOf(NameParts(raw).0, NameParts(raw).1).exibicao
    ensures var k := KeyOf(NameParts(raw).0, NameParts(raw).1);
      '-' in k.cidade ==> r == Err(Raise(DashMessage)) && db.cidades == old(db.cidades) && db.nextId == old(db.nextId)
    ensures var k := KeyOf(NameParts(raw).0, NameParts(raw).1);
      '-' !in k.cidade && FindByKey(old(db.cidades), tenant, k.exibicao).Some? ==>
      var (t, i) := Resolve(old(db.cidades), tenant, k.exibicao, NewRow(old(db.nextId), tenant, k));
      db.cidades == t && r == Ok(t[i]) && db.nextId == old(db.nextId)
    ensures var k := KeyOf(NameParts(raw).0, NameParts(raw).1);
      '-' !in k.cidade && FindByKey(old(db.cidades), tenant, k.exibicao).None? && ins.Commit? ==>
      var (t, i) := Resolve(old(db.cidades) + ins.concurrent, tenant, k.exibicao, NewRow(old(db.nextId), tenant, k));
      db.cidades == t && r == Ok(t[i]) &&
      db.nextId == (if |t| > |old(db.cidades) + ins.concurrent| then old(db.nextId) + 1 else old(db.nextId))
    ensures var k := KeyOf(NameParts(raw).0, NameParts(raw).1);
      '-' !in k.cidade && FindByKey(old(db.cidades), tenant, k.exibicao).None? && ins.Fails? ==>
      r == Err(ins.failure) && db.cidades == old(db.cidades) && db.nextId == old(db.nextId)
  {
    var (c, b) := NameParts(raw);
    r := Create(db, c, b, tenant, ins);
  }

  /**
   * `update`: rejects a city name with '-' and a display name some other row
   * holds, live or soft-deleted; otherwise the repository renames the row when
   * it is live in the tenant, and reports null when it is not.
   */
  method UpdateCity(db: Database, id: Id, nomeCidade: string, nomeBairro: Option<string>, tenant: Id)
    returns (r: Result<Option<Cidade>, Failure>)
    requires TableValid(db.cidades, db.nextId)
    modifies db`cidades
    ensures TableValid(db.cidades, db.nextId)
    ensures var k := KeyOf(nomeCidade, nomeBairro);
      var holder := FindByKey(old(db.cidades), tenant, k.exibicao);
      if '-' in k.cidade then r == Err(Raise(DashMessage)) && db.cidades == old(db.cidades)
      else if holder.Some? && old(db.cidades)[holder.value].id != id then r == Err(Raise(ExistsMessage)) && db.cidades == old(db.cidades)
      else r.Ok? && (db.cidades, r.value) == Update(old(db.cidades), tenant, id, k.exibicao, CityNames(Some(k.cidade), k.bairro, Some(k.exibicao)))
  {
    var k := KeyOf(nomeCidade, nomeBairro);
    if '-' in k.cidade {
      return Err(Raise(DashMessage));
    }
    var holder := FindByKey(db.cidades, tenant, k.exibicao);
    if holder.Some? && db.cidades[holder.value].id != id {
      return Err(Raise(ExistsMessage));
    }
    var names := CityNames(Some(k.cidade), k.bairro, Some(k.exibicao));
    UpdateKeepsValid(db.cidades, db.nextId, tenant, id, k.exibicao, names);
    var (t, row) := Update(db.cidades, tenant, id, k.exibicao, names);
    db.cidades := t;
    r := Ok(row);
  }

  /** `delete`: the repository's soft delete; null when the row is not live in the tenant. */
  method DeleteCity(db: Database, id: Id, tenant: Id, now: Time) returns (r: Option<Cidade>)
    modifies db`cidades
    ensures (db.cidades, r) == SoftDelete(old(db.cidades), tenant, id, now)
  {
    var (t, row) := SoftDelete(db.cidades, tenant, id, now);
    db.cidades := t;
    r := row;
  }

  // ---------------------------------------------------------------- importCsv

  /** The key the import computes for a record's first field. */
  function ImportKey(raw: string): CityKey
  {
    KeyOf(NameParts(raw).0, NameParts(raw).1)
  }

  /** The state the import loop carries: the table, the key counter and the two counters. */
  datatype Tally = Tally(table: seq<Cidade>, nextId: nat, inseridos: nat, ignorados: nat)

  /**
   * One record of the import: a record that is not accepted is skipped; the
   * record's display name is looked up by the unique key, live or soft-deleted;
   * a live row is counted as ignored, a soft-deleted one is restored with its
   * columns refreshed and a missing one is inserted, both counted as inserted.
   */
  function ImportStep(s: Tally, tenant: Id, rec: Option<string>): Tally
  {
    if !Accepted(rec) then s
    else
      var k := ImportKey(rec.value);
      match FindByKey(s.table, tenant, k.exibicao)
      case Some(e) =>
        if Live(s.table[e]) then s.(ignorados := s.ignorados + 1)
        else
          var names := CityNames(Some(k.cidade), k.bairro, Some(k.exibicao));
          s.(table := s.table[e := s.table[e].(deletedAt := None, extra := names)], inseridos := s.inseridos + 1)
      case None => Tally(s.table + [NewRow(s.nextId, tenant, k)], s.nextId + 1, s.inseridos + 1, s.ignorados)
  }

  /** The records taken in file order, each step on the table the previous ones left. */
  function Imported(s: Tally, tenant: Id, records: seq<Option<string>>): Tally
    decreases |records|
  {
    if records == [] then s
    else ImportStep(Imported(s, tenant, records[..|records| - 1]), tenant, records[|records| - 1])
  }

  /**
   * `importCsv`, over the first fields of the parsed records, in one
   * transaction: the table, the key counter and the counters are those of the
   * records taken in order. No '-' check is made here.
   */
  method ImportCsv(db: Database, records: seq<Option<string>>, tenant: Id) returns (total: nat, inseridos: nat, ignorados: nat)
    requires TableValid(db.cidades, db.nextId)
    modifies db`cidades, db`nextId
    ensures var s := Imported(Tally(old(db.cidades), old(db.nextId), 0, 0), tenant, records);
      db.cidades == s.table && db.nextId == s.nextId && inseridos == s.inseridos && ignorados == s.ignorados
    ensures TableValid(db.cidades, db.nextId)
    ensures total == |records| && inseridos + ignorados == CountWhere(records, Accepted) <= total
    ensures |List(db.cidades, tenant)| == |List(old(db.cidades), tenant)| + inseridos
    ensures ImportedLive(db.cidades, tenant, records)
  {
    ghost var s0 := Tally(db.cidades, db.nextId, 0, 0);
    inseridos, ignorados := 0, 0;
    var t, next := db.cidades, db.nextId;
    var i := 0;
    while i < |records|
      invariant 0 <= i <= |records|
      invariant Tally(t, next, inseridos, ignorados) == Imported(s0, tenant, records[..i])
    {
      t, next, inseridos, ignorados := ImportRecord(t, next, inseridos, ignorados, tenant, records[i]);
      PrefixStep(records, i);
      assert records[..i + 1][..i] == records[..i];
      i := i + 1;
    }
    assert records[..i] == records;
    ImportMakesLive(s0, tenant, records);
    ImportCounts(s0, tenant, records);
    db.cidades, db.nextId := t, next;
    total := |records|;
  }

  /** One pass of the import loop: the step on the record. */
  method ImportRecord(t: seq<Cidade>, nextId: nat, inseridos: nat, ignorados: nat, tenant: Id, rec: Option<string>)
    returns (t': seq<Cidade>, nextId': nat, inseridos': nat, ignorados': nat)
    ensures Tally(t', nextId', inseridos', ignorados') == ImportStep(Tally(t, nextId, inseridos, ignorados), tenant, rec)
  {
    t', nextId', inseridos', ignorados' := t, nextId, inseridos, ignorados;
    if Accepted(rec) {
      var k := ImportKey(rec.value);
      var existing := FindByKey(t, tenant, k.exibicao);
      if existing.Some? {
        var e := existing.value;
        if !Live(t[e]) {
          var names := CityNames(Some(k.cidade), k.bairro, Some(k.exibicao));
          t' := t[e := t[e].(deletedAt := None, extra := names)];
          inseridos' := inseridos + 1;
        } else {
          ignorados' := ignorados + 1;
        }
      } else {
        t', nextId' := t + [NewRow(nextId, tenant, k)], nextId + 1;
        inseridos' := inseridos + 1;
      }
    }
  }

  /**
   * A step keeps the unique key and the primary keys, keeps every key already
   * held live, leaves the record's own key held live, counts an accepted record
   * once, and grows the tenant's list by what it counts as inserted.
   */
  lemma StepKeeps(s: Tally, tenant: Id, done: seq<Option<string>>, rec: Option<string>)
    requires TableValid(s.table, s.nextId) && ImportedLive(s.table, tenant, done)
    ensures var r := ImportStep(s, tenant, rec);
      TableValid(r.table, r.nextId) && ImportedLive(r.table, tenant, done + [rec]) &&
      r.inseridos + r.ignorados == s.inseridos + s.ignorados + (if Accepted(rec) then 1 else 0) &&
      r.inseridos >= s.inseridos &&
      |List(r.table, tenant)| == |List(s.table, tenant)| + (r.inseridos - s.inseridos)
  {
    var r := ImportStep(s, tenant, rec);
    if Accepted(rec) {
      var k := ImportKey(rec.value);
      var existing := FindByKey(s.table, tenant, k.exibicao);
      if existing.Some? {
        var e := existing.value;
        if !Live(s.table[e]) {
          ReviveKeeps(s.table, s.nextId, tenant, e, CityNames(Some(k.cidade), k.bairro, Some(k.exibicao)), done);
        }
      } else {
        InsertKeeps(s.table, s.nextId, tenant, NewRow(s.nextId, tenant, k), done);
      }
    }
    ImportedExtend(r.table, tenant, done, rec);
  }

  /**
   * Every accepted record is counted once, as inserted or as ignored, and the
   * tenant's list grows by exactly the inserted count.
   */
  lemma {:induction false} ImportCounts(s: Tally, tenant: Id, records: seq<Option<string>>)
    requires TableValid(s.table, s.nextId)
    ensures var r := Imported(s, tenant, records);
      r.inseridos + r.ignorados == s.inseridos + s.ignorados + CountWhere(records, Accepted) &&
      r.inseridos >= s.inseridos &&
      |List(r.table, tenant)| == |List(s.table, tenant)| + (r.inseridos - s.inseridos)
    decreases |records|
  {
    if records != [] {
      var n := |records| - 1;
      ImportCounts(s, tenant, records[..n]);
      ImportMakesLive(s, tenant, records[..n]);
      StepKeeps(Imported(s, tenant, records[..n]), tenant, records[..n], records[n]);
      LastSplit(records);
      CountAppend(records[..n], [records[n]], Accepted);
      assert [records[n]][1..] == [];
    }
  }

  /** After the import, every accepted record's key is held by a live row of the tenant, and the table stays valid. */
  lemma {:induction false} ImportMakesLive(s: Tally, tenant: Id, records: seq<Option<string>>)
    requires TableValid(s.table, s.nextId)
    ensures var r := Imported(s, tenant, records);
      TableValid(r.table, r.nextId) && ImportedLive(r.table, tenant, records)
    decreases |records|
  {
    if records != [] {
      var n := |records| - 1;
      ImportMakesLive(s, tenant, records[..n]);
      StepKeeps(Imported(s, tenant, records[..n]), tenant, records[..n], records[n]);
      LastSplit(records);
    }
  }

  /**
   * What the import may change: the table only grows; rows of other tenants and
   * rows already live keep every column; a restored row keeps its id, tenant
   * and display name; the rows added at the end are live rows of the tenant.
   */
  predicate Grows(t: seq<Cidade>, t': seq<Cidade>, tenant: Id)
  {
    |t| <= |t'| &&
    (forall m | 0 <= m < |t| :: Kept(t[m], t'[m], tenant)) &&
    (forall m | |t| <= m < |t'| :: t'[m].tenantId == tenant && Live(t'[m]))
  }

  predicate Kept(a: Cidade, b: Cidade, tenant: Id)
  {
    b.id == a.id && b.tenantId == a.tenantId && b.nome == a.nome && (a.tenantId != tenant || Live(a) ==> b == a)
  }

  lemma GrowsTrans(t1: seq<Cidade>, t2: seq<Cidade>, t3: seq<Cidade>, tenant: Id)
    requires Grows(t1, t2, tenant) && Grows(t2, t3, tenant)
    ensures Grows(t1, t3, tenant)
  {
    forall m | 0 <= m < |t1| ensures Kept(t1[m], t3[m], tenant) {
      assert Kept(t1[m], t2[m], tenant) && Kept(t2[m], t3[m], tenant);
    }
    forall m | |t1| <= m < |t3| ensures t3[m].tenantId == tenant && Live(t3[m]) {
      if m < |t2| {
        assert Kept(t2[m], t3[m], tenant);
      }
    }
  }

  /** The import writes only rows of its own tenant, never changes a live row, and only appends. */
  lemma {:induction false} ImportFrame(s: Tally, tenant: Id, records: seq<Option<string>>)
    ensures Grows(s.table, Imported(s, tenant, records).table, tenant)
    decreases |records|
  {
    if records == [] {
      assert forall m | 0 <= m < |s.table| :: Kept(s.table[m], s.table[m], tenant);
    } else {
      var n := |records| - 1;
      var p := Imported(s, tenant, records[..n]);
      ImportFrame(s, tenant, records[..n]);
      StepGrows(p, tenant, records[n]);
      GrowsTrans(s.table, p.table, Imported(s, tenant, records).table, tenant);
    }
  }

  lemma StepGrows(s: Tally, tenant: Id, rec: Option<string>)
    ensures Grows(s.table, ImportStep(s, tenant, rec).table, tenant)
  {
    var r := ImportStep(s, tenant, rec);
    forall m | 0 <= m < |s.table| ensures Kept(s.table[m], r.table[m], tenant) {
    }
  }

  /**
   * When every accepted record's key is already held live, the import changes
   * nothing and ignores every accepted record.
   */
  lemma {:induction false} ImportOfLiveIgnores(s: Tally, tenant: Id, records: seq<Option<string>>)
    requires ImportedLive(s.table, tenant, records)
    ensures Imported(s, tenant, records) == s.(ignorados := s.ignorados + CountWhere(records, Accepted))
    decreases |records|
  {
    if records != [] {
      var n := |records| - 1;
      ImportedLivePrefix(s.table, tenant, records, n);
      ImportOfLiveIgnores(s, tenant, records[..n]);
      LastSplit(records);
      CountAppend(records[..n], [records[n]], Accepted);
      StepOfLive(s.(ignorados := s.ignorados + CountWhere(records[..n], Accepted)), tenant, records[n]);
    }
  }

  lemma ImportedLivePrefix(t: seq<Cidade>, tenant: Id, records: seq<Option<string>>, n: nat)
    requires ImportedLive(t, tenant, records) && n <= |records|
    ensures ImportedLive(t, tenant, records[..n])
  {
    forall j | 0 <= j < n && Accepted(records[..n][j]) ensures HeldLive(t, tenant, ImportKey(records[..n][j].value).exibicao) {
      assert records[..n][j] == records[j];
    }
  }

  /** A record whose key is already held live is ignored and changes nothing else. */
  lemma StepOfLive(s: Tally, tenant: Id, rec: Option<string>)
    requires Accepted(rec) ==> HeldLive(s.table, tenant, ImportKey(rec.value).exibicao)
    ensures ImportStep(s, tenant, rec) == s.(ignorados := s.ignorados + CountWhere([rec], Accepted))
  {
    assert [rec][1..] == [];
  }

  /** Importing the same file twice: the second import inserts nothing, changes no row and ignores every accepted record. */
  lemma ImportTwice(t: seq<Cidade>, nextId: nat, tenant: Id, records: seq<Option<string>>)
    requires TableValid(t, nextId)
    ensures var r := Imported(Tally(t, nextId, 0, 0), tenant, records);
      var r2 := Imported(Tally(r.table, r.nextId, 0, 0), tenant, records);
      r2.table == r.table && r2.nextId == r.nextId && r2.inseridos == 0 && r2.ignorados == CountWhere(records, Accepted)
  {
    var r := Imported(Tally(t, nextId, 0, 0), tenant, records);
    ImportMakesLive(Tally(t, nextId, 0, 0), tenant, records);
    ImportOfLiveIgnores(Tally(r.table, r.nextId, 0, 0), tenant, records);
  }

  /** The key is held by a live row of the tenant. */
  predicate HeldLive(t: seq<Cidade>, tenant: Id, exibicao: string)
  {
    FindByKey(t, tenant, exibicao).Some? && Live(t[FindByKey(t, tenant, exibicao).value])
  }

  /** The keys of the accepted records among `done` are all held by live rows of the tenant. */
  predicate ImportedLive(t: seq<Cidade>, tenant: Id, done: seq<Option<string>>)
  {
    forall j | 0 <= j < |done| && Accepted(done[j]) :: HeldLive(t, tenant, ImportKey(done[j].value).exibicao)
  }

  lemma ImportedExtend(t: seq<Cidade>, tenant: Id, done: seq<Option<string>>, rec: Option<string>)
    requires ImportedLive(t, tenant, done)
    requires Accepted(rec) ==>
      FindByKey(t, tenant, ImportKey(rec.value).exibicao).Some? && Live(t[FindByKey(t, tenant, ImportKey(rec.value).exibicao).value])
    ensures ImportedLive(t, tenant, done + [rec])
  {
    var d := done + [rec];
    forall j | 0 <= j < |d| && Accepted(d[j])
      ensures FindByKey(t, tenant, ImportKey(d[j].value).exibicao).Some? && Live(t[FindByKey(t, tenant, ImportKey(d[j].value).exibicao).value])
    {
      if j < |done| {
        assert d[j] == done[j];
      }
    }
  }

  /** Reviving a soft-deleted row of the tenant keeps the table valid, keeps earlier keys live, and adds one live row. */
  lemma ReviveKeeps(t: seq<Cidade>, nextId: nat, tenant: Id, e: nat, names: CityNames, done: seq<Option<string>>)
    requires TableValid(t, nextId) && e < |t| && t[e].tenantId == tenant && !Live(t[e])
    requires ImportedLive(t, tenant, done)
    ensures var t' := t[e := t[e].(deletedAt := None, extra := names)];
      TableValid(t', nextId) && ImportedLive(t', tenant, done) && |List(t', tenant)| == |List(t, tenant)| + 1 &&
      FindByKey(t', tenant, t[e].nome) == Some(e) && Live(t'[e])
  {
    var t' := t[e := t[e].(deletedAt := None, extra := names)];
    KeyFoundIsOnly(t', tenant, t[e].nome, e);
    CountUpdate(t, e, t'[e], LiveOf(tenant));
    forall j | 0 <= j < |done| && Accepted(done[j])
      ensures FindByKey(t', tenant, ImportKey(done[j].value).exibicao).Some? &&
        Live(t'[FindByKey(t', tenant, ImportKey(done[j].value).exibicao).value])
    {
      var p := KeyIs<CityNames>(tenant, ImportKey(done[j].value).exibicao);
      forall m | 0 <= m < |t| ensures p(t[m]) == p(t'[m]) {
      }
      FirstWhereAgree(t, t', p);
    }
  }

  /** Inserting a row under an unused key keeps the table valid, keeps earlier keys live, and adds one live row. */
  lemma InsertKeeps(t: seq<Cidade>, nextId: nat, tenant: Id, row: Cidade, done: seq<Option<string>>)
    requires TableValid(t, nextId) && row.id == nextId && row.tenantId == tenant && Live(row)
    requires FindByKey(t, tenant, row.nome).None?
    requires ImportedLive(t, tenant, done)
    ensures var t' := t + [row];
      TableValid(t', nextId + 1) && ImportedLive(t', tenant, done) && |List(t', tenant)| == |List(t, tenant)| + 1 &&
      FindByKey(t', tenant, row.nome) == Some(|t|)
  {
    ResolveKeepsValid(t, nextId, tenant, row.nome, row);
    KeyFoundIsOnly(t + [row], tenant, row.nome, |t|);
    CountAppend(t, [row], LiveOf(tenant));
    assert [row][1..] == [];
    forall j | 0 <= j < |done| && Accepted(done[j])
      ensures FindByKey(t + [row], tenant, ImportKey(done[j].value).exibicao).Some? &&
        Live((t + [row])[FindByKey(t + [row], tenant, ImportKey(done[j].value).exibicao).value])
    {
      FirstWhereAppend(t, [row], KeyIs<CityNames>(tenant, ImportKey(done[j].value).exibicao));
    }
  }
}
