/**
 * `InstrumentoService` (backend/src/application/services/instrumento.service.ts)
 * over the instrument table of `InstrumentoRepository`
 * (backend/src/infra/repositories/instrumento.repository.ts). An instrument is
 * keyed by its name trimmed, upper-cased and with whitespace runs collapsed;
 * there is no accent stripping and no synonym table here.
 */
module Instruments {
  import opened Wrappers
  import opened Store
  import opened ErrorMapping
  import opened Catalog

  const ExistsMessage: string := "Instrumento with this name already exists"

  /** The row `create` inserts: the normalised name in the tenant, live. */
  function NewRow(id: Id, tenant: Id, nome: string): Instrumento
  {
    Row(id, tenant, nome, (), None)
  }

  /**
   * `create` (and `findOrCreateByName`, which is `create` itself): a live row
   * holding the normalised name is returned unchanged, a soft-deleted one is
   * restored with the same id, and otherwise one row is inserted, with the
   * `P2002` retry of the find-or-insert.
   */
  method Create(db: Database, nome: string, tenant: Id, ins: Insertion<()>) returns (r: Result<Instrumento, Failure>)
    requires TableValid(db.instrumentos, db.nextId)
    requires ins.Commit? ==> TableValid(db.instrumentos + ins.concurrent, db.nextId)
    modifies db`instrumentos, db`nextId
    ensures TableValid(db.instrumentos, db.nextId)
    ensures var key := NormalizeName(nome);
      FindByKey(old(db.instrumentos), tenant, key).Some? ==>
      var (t, i) := Resolve(old(db.instrumentos), tenant, key, NewRow(old(db.nextId), tenant, key));
      db.instrumentos == t && r == Ok(t[i]) && db.nextId == old(db.nextId)
    ensures var key := NormalizeName(nome);
      FindByKey(old(db.instrumentos), tenant, key).None? && ins.Commit? ==>
      var (t, i) := Resolve(old(db.instrumentos) + ins.concurrent, tenant, key, NewRow(old(db.nextId), tenant, key));
      db.instrumentos == t && r == Ok(t[i]) &&
      db.nextId == (if |t| > |old(db.instrumentos) + ins.concurrent| then old(db.nextId) + 1 else old(db.nextId))
    ensures var key := NormalizeName(nome);
      FindByKey(old(db.instrumentos), tenant, key).None? && ins.Fails? ==>
      r == Err(ins.failure) && db.instrumentos == old(db.instrumentos) && db.nextId == old(db.nextId)
  {
    var key := NormalizeName(nome);
    var t, next, res := FindOrInsert(db.instrumentos, db.nextId, tenant, key, NewRow(db.nextId, tenant, key), ins);
    db.instrumentos, db.nextId, r := t, next, res;
  }

  /**
   * `update`: rejects a normalised name some other row holds, live or
   * soft-deleted; otherwise the repository renames the row when it is live in
   * the tenant and reports null when it is not.
   */
  method UpdateInstrument(db: Database, id: Id, nome: string, tenant: Id) returns (r: Result<Option<Instrumento>, Failure>)
    requires TableValid(db.instrumentos, db.nextId)
    modifies db`instrumentos
    ensures TableValid(db.instrumentos, db.nextId)
    ensures var key := NormalizeName(nome);
      var holder := FindByKey(old(db.instrumentos), tenant, key);
      if holder.Some? && old(db.instrumentos)[holder.value].id != id then
        r == Err(Raise(ExistsMessage)) && db.instrumentos == old(db.instrumentos)
      else r.Ok? && (db.instrumentos, r.value) == Update(old(db.instrumentos), tenant, id, key, ())
  {
    var key := NormalizeName(nome);
    var holder := FindByKey(db.instrumentos, tenant, key);
    if holder.Some? && db.instrumentos[holder.value].id != id {
      return Err(Raise(ExistsMessage));
    }
    UpdateKeepsValid(db.instrumentos, db.nextId, tenant, id, key, ());
    var (t, row) := Update(db.instrumentos, tenant, id, key, ());
    db.instrumentos := t;
    r := Ok(row);
  }

  /** `delete`: the repository's soft delete; null when the row is not live in the tenant. */
  method DeleteInstrument(db: Database, id: Id, tenant: Id, now: Time) returns (r: Option<Instrumento>)
    modifies db`instrumentos
    ensures (db.instrumentos, r) == SoftDelete(old(db.instrumentos), tenant, id, now)
  {
    var (t, row) := SoftDelete(db.instrumentos, tenant, id, now);
    db.instrumentos := t;
    r := row;
  }

  // ---------------------------------------------------------------- importCsv

  /** The state the import loop carries: the table, the key counter and the two counters. */
  datatype Tally = Tally(table: seq<Instrumento>, nextId: nat, inseridos: nat, ignorados: nat)

  /**
   * One record of the import: a record that is not accepted is skipped; the
   * normalised name is looked up by the unique key, live or soft-deleted; a live
   * row is counted as ignored, a soft-deleted one has `deletedAt` cleared and a
   * missing one is inserted, both counted as inserted.
   */
  function ImportStep(s: Tally, tenant: Id, rec: Option<string>): Tally
  {
    if !Accepted(rec) then s
    else
      var nome := NormalizeName(rec.value);
      match FindByKey(s.table, tenant, nome)
      case Some(k) =>
        if Live(s.table[k]) then s.(ignorados := s.ignorados + 1)
        else s.(table := Restore(s.table, k), inseridos := s.inseridos + 1)
      case None => Tally(s.table + [NewRow(s.nextId, tenant, nome)], s.nextId + 1, s.inseridos + 1, s.ignorados)
  }

  /** The import of `records`, one record after another, from the state `s`. */
  function Imported(s: Tally, tenant: Id, records: seq<Option<string>>): Tally
    decreases |records|
  {
    if records == [] then s
    else ImportStep(Imported(s, tenant, records[..|records| - 1]), tenant, records[|records| - 1])
  }

  /**
   * `importCsv`, over the first fields of the parsed records, in one
   * transaction; the result is the counters and `totalProcessados`.
   */
  method ImportCsv(db: Database, records: seq<Option<string>>, tenant: Id) returns (total: nat, inseridos: nat, ignorados: nat)
    requires TableValid(db.instrumentos, db.nextId)
    modifies db`instrumentos, db`nextId
    ensures var s := Imported(Tally(old(db.instrumentos), old(db.nextId), 0, 0), tenant, records);
      db.instrumentos == s.table && db.nextId == s.nextId && inseridos == s.inseridos && ignorados == s.ignorados
    ensures total == |records|
    ensures TableValid(db.instrumentos, db.nextId)
  {
    ghost var s0 := Tally(db.instrumentos, db.nextId, 0, 0);
    var t, next := db.instrumentos, db.nextId;
    inseridos, ignorados := 0, 0;
    var i := 0;
    while i < |records|
      invariant 0 <= i <= |records|
      invariant Tally(t, next, inseridos, ignorados) == Imported(s0, tenant, records[..i])
    {
      PrefixStep(records, i);
      assert records[..i + 1][..i] == records[..i];
      var rec := records[i];
      if Accepted(rec) {
        var nome := NormalizeName(rec.value);
        var existing := FindByKey(t, tenant, nome);
        if existing.Some? {
          if !Live(t[existing.value]) {
            t := t[existing.value := t[existing.value].(deletedAt := None)];
            inseridos := inseridos + 1;
          } else {
            ignorados := ignorados + 1;
          }
        } else {
          t := t + [NewRow(next, tenant, nome)];
          next := next + 1;
          inseridos := inseridos + 1;
        }
      }
      i := i + 1;
    }
    assert records[..i] == records;
    ImportKeepsValid(s0, tenant, records);
    db.instrumentos, db.nextId := t, next;
    total := |records|;
  }

  /** A step resolves the record's key exactly as `create` would, without the insert race. */
  lemma StepIsResolve(s: Tally, tenant: Id, rec: Option<string>)
    requires Accepted(rec)
    ensures var nome := NormalizeName(rec.value);
      ImportStep(s, tenant, rec).table == Resolve(s.table, tenant, nome, NewRow(s.nextId, tenant, nome)).0
  {
  }

  /** The import keeps the unique key and the primary keys. */
  lemma {:induction false} ImportKeepsValid(s: Tally, tenant: Id, records: seq<Option<string>>)
    requires TableValid(s.table, s.nextId)
    ensures var r := Imported(s, tenant, records); TableValid(r.table, r.nextId) && r.nextId >= s.nextId
    decreases |records|
  {
    if records != [] {
      var p := Imported(s, tenant, records[..|records| - 1]);
      ImportKeepsValid(s, tenant, records[..|records| - 1]);
      StepKeepsValid(p, tenant, records[|records| - 1]);
    }
  }

  lemma StepKeepsValid(s: Tally, tenant: Id, rec: Option<string>)
    requires TableValid(s.table, s.nextId)
    ensures var r := ImportStep(s, tenant, rec); TableValid(r.table, r.nextId) && r.nextId >= s.nextId
  {
    if Accepted(rec) {
      var nome := NormalizeName(rec.value);
      ResolveKeepsValid(s.table, s.nextId, tenant, nome, NewRow(s.nextId, tenant, nome));
      var r := ImportStep(s, tenant, rec);
      if FindByKey(s.table, tenant, nome).Some? {
        assert forall i | 0 <= i < |r.table| :: r.table[i].id == s.table[i].id;
      }
    }
  }

  /**
   * Every accepted record is counted once, as inserted or as ignored, and the
   * tenant's list grows by exactly the inserted count.
   */
  lemma {:induction false} ImportCounts(s: Tally, tenant: Id, records: seq<Option<string>>)
    ensures var r := Imported(s, tenant, records);
      r.inseridos + r.ignorados == s.inseridos + s.ignorados + CountWhere(records, Accepted) &&
      r.inseridos >= s.inseridos &&
      |List(r.table, tenant)| == |List(s.table, tenant)| + (r.inseridos - s.inseridos)
    decreases |records|
  {
    if records != [] {
      var n := |records| - 1;
      var p := Imported(s, tenant, records[..n]);
      ImportCounts(s, tenant, records[..n]);
      LastSplit(records);
      CountAppend(records[..n], [records[n]], Accepted);
      StepCounts(p, tenant, records[n]);
    }
  }

  lemma StepCounts(s: Tally, tenant: Id, rec: Option<string>)
    ensures var r := ImportStep(s, tenant, rec);
      r.inseridos + r.ignorados == s.inseridos + s.ignorados + (if Accepted(rec) then 1 else 0) &&
      r.inseridos >= s.inseridos &&
      |List(r.table, tenant)| == |List(s.table, tenant)| + (r.inseridos - s.inseridos)
  {
    assert [rec][1..] == [];
    if Accepted(rec) {
      var nome := NormalizeName(rec.value);
      match FindByKey(s.table, tenant, nome)
      case Some(k) =>
        if !Live(s.table[k]) {
          CountUpdate(s.table, k, s.table[k].(deletedAt := None), LiveOf(tenant));
        }
      case None =>
        var row := NewRow(s.nextId, tenant, nome);
        CountAppend(s.table, [row], LiveOf(tenant));
        assert [row][1..] == [];
    }
  }

  /** The key is held by a live row of the tenant. */
  predicate HeldLive(t: seq<Instrumento>, tenant: Id, nome: string)
  {
    FindByKey(t, tenant, nome).Some? && Live(t[FindByKey(t, tenant, nome).value])
  }

  /** Every accepted record's normalised name is held by a live row of the tenant. */
  predicate AllLive(t: seq<Instrumento>, tenant: Id, records: seq<Option<string>>)
  {
    forall j | 0 <= j < |records| && Accepted(records[j]) :: HeldLive(t, tenant, NormalizeName(records[j].value))
  }

  /** A step leaves every key that was held live still held live, by the same row. */
  lemma StepKeepsHeld(s: Tally, tenant: Id, rec: Option<string>, nome': string)
    requires HeldLive(s.table, tenant, nome')
    ensures HeldLive(ImportStep(s, tenant, rec).table, tenant, nome')
  {
    if Accepted(rec) {
      var nome := NormalizeName(rec.value);
      ResolveKeepsOtherKeys(s.table, tenant, nome, NewRow(s.nextId, tenant, nome), nome');
    }
  }

  /** After the import, every accepted record's name is held by a live row. */
  lemma {:induction false} ImportMakesLive(s: Tally, tenant: Id, records: seq<Option<string>>)
    ensures AllLive(Imported(s, tenant, records).table, tenant, records)
    decreases |records|
  {
    if records != [] {
      var n := |records| - 1;
      var p := Imported(s, tenant, records[..n]);
      var r := ImportStep(p, tenant, records[n]);
      ImportMakesLive(s, tenant, records[..n]);
      forall j | 0 <= j < |records| && Accepted(records[j]) ensures HeldLive(r.table, tenant, NormalizeName(records[j].value)) {
        if j < n {
          assert records[j] == records[..n][j];
          StepKeepsHeld(p, tenant, records[n], NormalizeName(records[j].value));
        } else {
          var nome := NormalizeName(records[n].value);
          StepIsResolve(p, tenant, records[n]);
          ResolveIdempotent(p.table, tenant, nome, NewRow(p.nextId, tenant, nome), NewRow(p.nextId, tenant, nome));
        }
      }
    }
  }

  /**
   * When every accepted record's name is already live, the import changes
   * nothing and ignores every accepted record.
   */
  lemma {:induction false} ImportOfLiveIgnores(s: Tally, tenant: Id, records: seq<Option<string>>)
    requires AllLive(s.table, tenant, records)
    ensures Imported(s, tenant, records) == s.(ignorados := s.ignorados + CountWhere(records, Accepted))
    decreases |records|
  {
    if records != [] {
      var n := |records| - 1;
      AllLivePrefix(s.table, tenant, records, n);
      ImportOfLiveIgnores(s, tenant, records[..n]);
      LastSplit(records);
      CountAppend(records[..n], [records[n]], Accepted);
      StepOfLive(s.(ignorados := s.ignorados + CountWhere(records[..n], Accepted)), tenant, records[n]);
    }
  }

  lemma AllLivePrefix(t: seq<Instrumento>, tenant: Id, records: seq<Option<string>>, n: nat)
    requires AllLive(t, tenant, records) && n <= |records|
    ensures AllLive(t, tenant, records[..n])
  {
    forall j | 0 <= j < n && Accepted(records[..n][j]) ensures HeldLive(t, tenant, NormalizeName(records[..n][j].value)) {
      assert records[..n][j] == records[j];
    }
  }

  /** A record whose name is already live is ignored and changes nothing else. */
  lemma StepOfLive(s: Tally, tenant: Id, rec: Option<string>)
    requires Accepted(rec) ==> HeldLive(s.table, tenant, NormalizeName(rec.value))
    ensures ImportStep(s, tenant, rec) == s.(ignorados := s.ignorados + CountWhere([rec], Accepted))
  {
    assert [rec][1..] == [];
  }

  /** Importing the same file twice: the second import inserts nothing, changes no row and ignores every accepted record. */
  lemma ImportTwice(t: seq<Instrumento>, nextId: nat, tenant: Id, records: seq<Option<string>>)
    ensures var r := Imported(Tally(t, nextId, 0, 0), tenant, records);
      var r2 := Imported(Tally(r.table, r.nextId, 0, 0), tenant, records);
      r2.table == r.table && r2.nextId == r.nextId && r2.inseridos == 0 && r2.ignorados == CountWhere(records, Accepted)
  {
    var r := Imported(Tally(t, nextId, 0, 0), tenant, records);
    ImportMakesLive(Tally(t, nextId, 0, 0), tenant, records);
    ImportOfLiveIgnores(Tally(r.table, r.nextId, 0, 0), tenant, records);
  }
}
