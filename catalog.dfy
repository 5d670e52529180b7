/**
 * The reference tables shared by the city, instrument and ministry-function
 * services (backend/src/infra/repositories/cidade.repository.ts,
 * backend/src/infra/repositories/instrumento.repository.ts): rows with a soft
 * delete and a unique (tenantId, nome) key, the repository operations on them,
 * and the find-or-restore-or-insert resolution every "create" performs.
 */
module Catalog {
  import opened Wrappers
  import opened Store
  import opened Text
  import opened ErrorMapping
  import opened Normalization

  /** `normalize` of the admin services: `trim`, `toUpperCase`, then every whitespace run becomes one space. */
  function NormalizeName(s: string): string
  {
    CollapseSpaces(ToUpper(Trim(s)))
  }

  /**
   * The normalised name is its own normal form: it is trimmed, upper-case and
   * collapsed, so normalising it again changes nothing.
   */
  lemma NormalizeNameIdempotent(s: string)
    ensures NormalizeName(NormalizeName(s)) == NormalizeName(s)
    ensures Trim(NormalizeName(s)) == NormalizeName(s)
  {
    var t := Trim(s);
    var u := ToUpper(t);
    var k := CollapseSpaces(u);
    var _ := TrimSpec(s);
    ToUpperIdempotent(t);
    if u != [] {
      UpperCharSpec(t[0]);
      UpperCharSpec(t[|t| - 1]);
      CollapseHead(u);
      CollapseLast(u);
      TrimOfTrimmed(k);
    }
    forall i | 0 <= i < |k| ensures UpperChar(k[i]) == k[i] {
      CollapseKeepsChars(u, i);
      if k[i] != ' ' {
        var j :| 0 <= j < |u| && u[j] == k[i];
        UpperCharSpec(t[j]);
      }
    }
    assert ToUpper(k) == k;
    CollapseIdempotent(u);
  }

  predicate Live<X>(r: Row<X>)
  {
    r.deletedAt.None?
  }

  /** The unique index on (tenantId, nome): it holds for live and soft-deleted rows alike. */
  predicate KeysUnique<X>(t: seq<Row<X>>)
  {
    forall i, j | 0 <= i < j < |t| :: !(t[i].tenantId == t[j].tenantId && t[i].nome == t[j].nome)
  }

  /** Primary keys are distinct, and every one was drawn below the key counter. */
  predicate IdsBelow<X>(t: seq<Row<X>>, nextId: nat)
  {
    (forall i, j | 0 <= i < j < |t| :: t[i].id != t[j].id) && forall i | 0 <= i < |t| :: t[i].id < nextId
  }

  predicate TableValid<X>(t: seq<Row<X>>, nextId: nat)
  {
    KeysUnique(t) && IdsBelow(t, nextId)
  }

  // ---------------------------------------------------------------- lookups

  function KeyIs<X>(tenant: Id, nome: string): Row<X> -> bool
  {
    (r: Row<X>) => r.tenantId == tenant && r.nome == nome
  }

  function LiveIdIs<X>(tenant: Id, id: Id): Row<X> -> bool
  {
    (r: Row<X>) => r.id == id && r.tenantId == tenant && Live(r)
  }

  /** `findByNameIncludingDeleted`: the row holding the unique key, live or soft-deleted. */
  function FindByKey<X>(t: seq<Row<X>>, tenant: Id, nome: string): (r: Option<nat>)
    ensures r.Some? ==> r.value < |t| && t[r.value].tenantId == tenant && t[r.value].nome == nome
    ensures r.None? ==> forall j | 0 <= j < |t| :: !(t[j].tenantId == tenant && t[j].nome == nome)
  {
    FirstWhere(t, KeyIs(tenant, nome))
  }

  /** `findById`: a live row of the tenant with that id; soft-deleted rows and other tenants' rows are never found. */
  function FindById<X>(t: seq<Row<X>>, tenant: Id, id: Id): (r: Option<nat>)
    ensures r.Some? ==> r.value < |t| && t[r.value].id == id && t[r.value].tenantId == tenant && Live(t[r.value])
    ensures r.None? ==> forall j | 0 <= j < |t| :: !(t[j].id == id && t[j].tenantId == tenant && Live(t[j]))
  {
    FirstWhere(t, LiveIdIs(tenant, id))
  }

  /** `findByName`: a live row of the tenant with that name. */
  function FindByName<X>(t: seq<Row<X>>, tenant: Id, nome: string): (r: Option<nat>)
    ensures r.Some? ==> r.value < |t| && t[r.value].nome == nome && t[r.value].tenantId == tenant && Live(t[r.value])
    ensures r.None? ==> forall j | 0 <= j < |t| :: !(t[j].nome == nome && t[j].tenantId == tenant && Live(t[j]))
  {
    FirstWhere(t, (r: Row<X>) => r.nome == nome && r.tenantId == tenant && Live(r))
  }

  function LiveOf<X>(tenant: Id): Row<X> -> bool
  {
    (r: Row<X>) => r.tenantId == tenant && Live(r)
  }

  /** `list`: the tenant's live rows (the database's ordering by `nome` is not modelled). */
  function List<X>(t: seq<Row<X>>, tenant: Id): (r: seq<Row<X>>)
    ensures forall x | x in r :: x in t && x.tenantId == tenant && Live(x)
    ensures forall j | 0 <= j < |t| && t[j].tenantId == tenant && Live(t[j]) :: t[j] in r
  {
    Where(t, LiveOf(tenant))
  }

  /** Under a unique key, the row found by key is the only one holding it. */
  lemma KeyFoundIsOnly<X>(t: seq<Row<X>>, tenant: Id, nome: string, j: nat)
    requires KeysUnique(t) && j < |t| && t[j].tenantId == tenant && t[j].nome == nome
    ensures FindByKey(t, tenant, nome) == Some(j)
  {
    var p := KeyIs<X>(tenant, nome);
    forall k | 0 <= k < j ensures !p(t[k]) {
    }
    FirstWhereAt(t, p, j);
  }

  // ---------------------------------------------------------------- updates

  /** `restore(id)`: clears `deletedAt` and nothing else. */
  function Restore<X>(t: seq<Row<X>>, i: nat): (r: seq<Row<X>>)
    requires i < |t|
    ensures |r| == |t| && Live(r[i])
    ensures r[i].id == t[i].id && r[i].tenantId == t[i].tenantId && r[i].nome == t[i].nome && r[i].extra == t[i].extra
    ensures forall j | 0 <= j < |t| && j != i :: r[j] == t[j]
  {
    t[i := t[i].(deletedAt := None)]
  }

  /**
   * `softDelete(id, tenantId)`: a live row of the tenant gets `deletedAt` and is
   * returned; otherwise the result is null and the table is unchanged.
   */
  function SoftDelete<X>(t: seq<Row<X>>, tenant: Id, id: Id, now: Time): (r: (seq<Row<X>>, Option<Row<X>>))
    ensures r.1.None? <==> FindById(t, tenant, id).None?
    ensures r.1.None? ==> r.0 == t
    ensures r.1.Some? ==>
      var k := FindById(t, tenant, id).value;
      r.1.value == t[k].(deletedAt := Some(now)) && r.0 == t[k := r.1.value]
  {
    match FindById(t, tenant, id)
    case None => (t, None)
    case Some(k) => var row := t[k].(deletedAt := Some(now)); (t[k := row], Some(row))
  }

  /**
   * `update(id, data, tenantId)`: a live row of the tenant gets the new name and
   * columns; otherwise the result is null and the table is unchanged.
   */
  function Update<X>(t: seq<Row<X>>, tenant: Id, id: Id, nome: string, extra: X): (r: (seq<Row<X>>, Option<Row<X>>))
    ensures r.1.None? <==> FindById(t, tenant, id).None?
    ensures r.1.None? ==> r.0 == t
    ensures r.1.Some? ==>
      var k := FindById(t, tenant, id).value;
      r.1.value == t[k].(nome := nome, extra := extra) && r.0 == t[k := r.1.value]
  {
    match FindById(t, tenant, id)
    case None => (t, None)
    case Some(k) => var row := t[k].(nome := nome, extra := extra); (t[k := row], Some(row))
  }

  /**
   * The uniqueness check of the services' `update`: when no other row holds the
   * new name, renaming keeps the unique key and the primary keys.
   */
  lemma UpdateKeepsValid<X>(t: seq<Row<X>>, nextId: nat, tenant: Id, id: Id, nome: string, extra: X)
    requires TableValid(t, nextId)
    requires FindByKey(t, tenant, nome).Some? ==> t[FindByKey(t, tenant, nome).value].id == id
    ensures TableValid(Update(t, tenant, id, nome, extra).0, nextId)
  {
    var r := Update(t, tenant, id, nome, extra);
    if r.1.Some? {
      var k := FindById(t, tenant, id).value;
      forall i, j | 0 <= i < j < |t| ensures !(r.0[i].tenantId == r.0[j].tenantId && r.0[i].nome == r.0[j].nome) {
        if i == k || j == k {
          var other := if i == k then j else i;
          if r.0[other].tenantId == tenant && r.0[other].nome == nome {
            assert FindByKey(t, tenant, nome).Some?;
            KeyFoundIsOnly(t, tenant, nome, other);
          }
        }
      }
    }
  }

  /** A soft delete that happens removes exactly one row from the tenant's list. */
  lemma {:induction false} SoftDeleteShrinksList<X>(t: seq<Row<X>>, tenant: Id, id: Id, now: Time)
    ensures var r := SoftDelete(t, tenant, id, now);
      |List(r.0, tenant)| == |List(t, tenant)| - (if r.1.Some? then 1 else 0)
  {
    var r := SoftDelete(t, tenant, id, now);
    if r.1.Some? {
      var k := FindById(t, tenant, id).value;
      CountUpdate(t, k, r.1.value, LiveOf(tenant));
    }
  }

  /** After a soft delete that happened, the row is no longer found by id. */
  lemma SoftDeleteHides<X>(t: seq<Row<X>>, nextId: nat, tenant: Id, id: Id, now: Time)
    requires IdsBelow(t, nextId)
    ensures SoftDelete(t, tenant, id, now).1.Some? ==> FindById(SoftDelete(t, tenant, id, now).0, tenant, id).None?
  {
  }

  // ---------------------------------------------------------------- resolution

  /**
   * The lookup half of a find-or-create on key (tenant, nome): a live row is
   * reused unchanged, a soft-deleted row is restored in place (same id), and
   * otherwise `row` is inserted. Yields the table and the resolved position.
   */
  function Resolve<X>(t: seq<Row<X>>, tenant: Id, nome: string, row: Row<X>): (r: (seq<Row<X>>, nat))
    requires row.tenantId == tenant && row.nome == nome && Live(row)
    ensures r.1 < |r.0| && r.0[r.1].tenantId == tenant && r.0[r.1].nome == nome && Live(r.0[r.1])
    ensures FindByKey(t, tenant, nome).Some? ==>
      var k := FindByKey(t, tenant, nome).value;
      r.1 == k && r.0[k].id == t[k].id && r.0 == (if Live(t[k]) then t else Restore(t, k))
    ensures FindByKey(t, tenant, nome).None? ==> r.0 == t + [row] && r.1 == |t|
  {
    match FindByKey(t, tenant, nome)
    case Some(k) => if Live(t[k]) then (t, k) else (Restore(t, k), k)
    case None => (t + [row], |t|)
  }

  /**
   * Resolving the same key twice changes nothing the second time: the second
   * call reuses the row the first one produced, whatever row it would insert.
   */
  lemma ResolveIdempotent<X>(t: seq<Row<X>>, tenant: Id, nome: string, row: Row<X>, row': Row<X>)
    requires row.tenantId == tenant && row.nome == nome && Live(row)
    requires row'.tenantId == tenant && row'.nome == nome && Live(row')
    ensures var (t1, i1) := Resolve(t, tenant, nome, row);
      Resolve(t1, tenant, nome, row') == (t1, i1)
  {
    var (t1, i1) := Resolve(t, tenant, nome, row);
    var p := KeyIs<X>(tenant, nome);
    match FindByKey(t, tenant, nome)
    case Some(k) =>
      forall j | 0 <= j < |t| ensures p(t[j]) == p(t1[j]) {
      }
      FirstWhereAgree(t, t1, p);
    case None =>
      FirstWhereAppend(t, [row], p);
      assert FirstWhere([row], p) == Some(0);
  }

  /** Resolution keeps the unique key and the primary keys, provided an inserted row takes an unused id. */
  lemma ResolveKeepsValid<X>(t: seq<Row<X>>, nextId: nat, tenant: Id, nome: string, row: Row<X>)
    requires row.tenantId == tenant && row.nome == nome && Live(row) && row.id == nextId
    requires TableValid(t, nextId)
    ensures TableValid(Resolve(t, tenant, nome, row).0, nextId + 1)
  {
    var t1 := Resolve(t, tenant, nome, row).0;
    if FindByKey(t, tenant, nome).None? {
      forall i, j | 0 <= i < j < |t1| ensures !(t1[i].tenantId == t1[j].tenantId && t1[i].nome == t1[j].nome) {
        if j == |t| {
          assert t1[i] == t[i] && t1[j] == row;
        }
      }
    }
  }

  /** Resolution never removes a row from the tenant's list and adds at most one. */
  lemma {:induction false} ResolveGrowsList<X>(t: seq<Row<X>>, tenant: Id, nome: string, row: Row<X>)
    requires row.tenantId == tenant && row.nome == nome && Live(row)
    ensures var n := |List(t, tenant)|;
      n <= |List(Resolve(t, tenant, nome, row).0, tenant)| <= n + 1
  {
    var p := LiveOf<X>(tenant);
    match FindByKey(t, tenant, nome)
    case Some(k) =>
      if !Live(t[k]) {
        CountUpdate(t, k, t[k].(deletedAt := None), p);
      }
    case None =>
      CountAppend(t, [row], p);
      assert [row][1..] == [];
  }

  /** Restoring or inserting one key leaves every other key's lookup where it was. */
  lemma ResolveKeepsOtherKeys<X>(t: seq<Row<X>>, tenant: Id, nome: string, row: Row<X>, nome': string)
    requires row.tenantId == tenant && row.nome == nome && Live(row)
    requires FindByKey(t, tenant, nome').Some?
    ensures var t1 := Resolve(t, tenant, nome, row).0;
      var k := FindByKey(t, tenant, nome').value;
      FindByKey(t1, tenant, nome') == Some(k) && (Live(t[k]) ==> Live(t1[k]))
  {
    var t1 := Resolve(t, tenant, nome, row).0;
    var p := KeyIs<X>(tenant, nome');
    if FindByKey(t, tenant, nome).Some? {
      forall j | 0 <= j < |t| ensures p(t[j]) == p(t1[j]) {
      }
      FirstWhereAgree(t, t1, p);
    } else {
      FirstWhereAppend(t, [row], p);
    }
  }

  // ---------------------------------------------------------------- optimistic insert

  /**
   * What the database does with the service's optimistic insert: either the
   * rows other requests committed since the lookup are there and the insert
   * proceeds (raising `P2002` when one of them holds the key), or the insert
   * fails outright with some other error.
   */
  datatype Insertion<X> =
    | Commit(concurrent: seq<Row<X>>)
    | Fails(failure: Failure)

  /**
   * The find-or-create of the services' `create`: resolve the key in `t`; when
   * nothing holds it, try the insert. A `Commit` brings in the rows other
   * requests committed meanwhile; if one of them holds the key the insert meets
   * `P2002` and the lookup runs again against them, otherwise `row` goes in. A
   * failing insert is rethrown and leaves the table as it was (the retried
   * lookup sees the same table and finds nothing either).
   */
  method FindOrInsert<X>(t: seq<Row<X>>, nextId: nat, tenant: Id, nome: string, row: Row<X>, ins: Insertion<X>)
    returns (t': seq<Row<X>>, nextId': nat, r: Result<Row<X>, Failure>)
    requires row.tenantId == tenant && row.nome == nome && Live(row) && row.id == nextId
    requires TableValid(t, nextId)
    requires ins.Commit? ==> TableValid(t + ins.concurrent, nextId)
    ensures TableValid(t', nextId')
    ensures FindByKey(t, tenant, nome).Some? ==>
      var (u, i) := Resolve(t, tenant, nome, row);
      t' == u && r == Ok(u[i]) && nextId' == nextId
    ensures FindByKey(t, tenant, nome).None? && ins.Commit? ==>
      var (u, i) := Resolve(t + ins.concurrent, tenant, nome, row);
      t' == u && r == Ok(u[i]) && nextId' == (if |u| > |t + ins.concurrent| then nextId + 1 else nextId)
    ensures FindByKey(t, tenant, nome).None? && ins.Fails? ==> r == Err(ins.failure) && t' == t && nextId' == nextId
  {
    var existing := FindByKey(t, tenant, nome);
    if existing.Some? {
      var i := existing.value;
      ResolveKeepsValid(t, nextId, tenant, nome, row);
      t', nextId' := if Live(t[i]) then t else Restore(t, i), nextId;
      return t', nextId', Ok(t'[i]);
    }
    match ins
    case Fails(failure) =>
      return t, nextId, Err(failure);
    case Commit(concurrent) =>
      var u := t + concurrent;
      ResolveKeepsValid(u, nextId, tenant, nome, row);
      var retry := FindByKey(u, tenant, nome);
      if retry.Some? {
        var i := retry.value;
        t', nextId' := if Live(u[i]) then u else Restore(u, i), nextId;
        return t', nextId', Ok(t'[i]);
      }
      return u + [row], nextId + 1, Ok(row);
  }

  // ---------------------------------------------------------------- CSV import

  /** An import record is used when its first field is present and at least two characters long. */
  predicate Accepted(field: Option<string>)
  {
    field.Some? && |field.value| >= 2
  }
}
