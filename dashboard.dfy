/**
 * The in-memory parts of `RelatorioService`
 * (backend/src/application/services/relatorio.service.ts): the city grouping
 * and the instrument labels of `getStats`, and the row mapping of
 * `exportCsv`. The database queries that feed them are inputs here.
 */
module Dashboard {
  import opened Wrappers
  import opened Store
  import opened Text

  // ---------------------------------------------------------------- city grouping

  /** A `groupBy(['cidadeId'])` row: a city id and its `_count.userId`. */
  datatype CityCount = CityCount(cidadeId: Id, count: nat)

  /** A pushed `{ nome, total }` entry of a group's `bairros`. */
  datatype Bairro = Bairro(nome: string, total: nat)

  /** A value of `cityGroups`: `{ nome, total, bairros }`. */
  datatype Group = Group(nome: string, total: nat, bairros: seq<Bairro>)

  /** `cidadesMap.get(id)`: the city row with that id, if any. */
  function CityById(cidades: seq<Cidade>, id: Id): Option<Cidade>
  {
    var k := FirstWhere(cidades, (c: Cidade) => c.id == id);
    if k.Some? then Some(cidades[k.value]) else None
  }

  /** The sum of the pushed entries' totals. */
  function BairroSum(bs: seq<Bairro>): nat
  {
    if bs == [] then 0 else BairroSum(bs[..|bs| - 1]) + bs[|bs| - 1].total
  }

  /** The sum of the groups' totals. */
  function GroupSum(gs: seq<Group>): nat
  {
    if gs == [] then 0 else gs[0].total + GroupSum(gs[1..])
  }

  /** How many entries the groups hold in all. */
  function EntryCount(gs: seq<Group>): nat
  {
    if gs == [] then 0 else |gs[0].bairros| + EntryCount(gs[1..])
  }

  /** Each group's total is the sum of its entries, and no name has two groups. */
  predicate Consistent(gs: seq<Group>)
  {
    (forall i | 0 <= i < |gs| :: gs[i].total == BairroSum(gs[i].bairros)) &&
    (forall i, j | 0 <= i < j < |gs| :: gs[i].nome != gs[j].nome)
  }

  /**
   * One kept row: the group of `city` is created when missing, its total
   * goes up by `n` and the entry `{ bairro, n }` is pushed onto it.
   */
  function Push(gs: seq<Group>, city: string, bairro: string, n: nat): seq<Group>
    decreases |gs|
  {
    if gs == [] then [Group(city, n, [Bairro(bairro, n)])]
    else if gs[0].nome == city then
      [gs[0].(total := gs[0].total + n, bairros := gs[0].bairros + [Bairro(bairro, n)])] + gs[1..]
    else [gs[0]] + Push(gs[1..], city, bairro, n)
  }

  /** `Push` keeps the names it had and adds at most `city`. */
  lemma {:induction false} PushNames(gs: seq<Group>, city: string, bairro: string, n: nat, j: nat)
    requires j < |Push(gs, city, bairro, n)|
    ensures Push(gs, city, bairro, n)[j].nome == city || exists i | 0 <= i < |gs| :: gs[i].nome == Push(gs, city, bairro, n)[j].nome
    decreases |gs|
  {
    if gs != [] && gs[0].nome != city && j > 0 {
      PushNames(gs[1..], city, bairro, n, j - 1);
      var r := Push(gs, city, bairro, n);
      assert r[j] == Push(gs[1..], city, bairro, n)[j - 1];
      if r[j].nome != city {
        var i :| 0 <= i < |gs[1..]| && gs[1..][i].nome == r[j].nome;
        assert gs[i + 1].nome == r[j].nome;
      }
    }
  }

  /**
   * One kept row adds `n` to the sum of the totals and one entry, and keeps
   * the groups consistent.
   */
  lemma {:induction false} PushSpec(gs: seq<Group>, city: string, bairro: string, n: nat)
    ensures var r := Push(gs, city, bairro, n);
      GroupSum(r) == GroupSum(gs) + n && EntryCount(r) == EntryCount(gs) + 1 &&
      (Consistent(gs) ==> Consistent(r))
    decreases |gs|
  {
    var r := Push(gs, city, bairro, n);
    if gs == [] {
      assert BairroSum([Bairro(bairro, n)]) == n by {
        assert [Bairro(bairro, n)][..0] == [];
      }
    } else if gs[0].nome == city {
      var bs := gs[0].bairros + [Bairro(bairro, n)];
      assert bs[..|bs| - 1] == gs[0].bairros;
      assert r[1..] == gs[1..];
    } else {
      var tail := gs[1..];
      PushSpec(tail, city, bairro, n);
      assert r[1..] == Push(tail, city, bairro, n);
      if Consistent(gs) {
        assert Consistent(tail);
        forall j | 1 <= j < |r| ensures r[j].nome != gs[0].nome {
          PushNames(tail, city, bairro, n, j - 1);
        }
      }
    }
  }

  /** Whether a grouped row's city is found; rows whose city is not are skipped. */
  predicate Kept(cidades: seq<Cidade>, item: CityCount)
  {
    CityById(cidades, item.cidadeId).Some?
  }

  /** `cityGroups` after the rows, in order. */
  function GroupsOf(raw: seq<CityCount>, cidades: seq<Cidade>): seq<Group>
    decreases |raw|
  {
    if raw == [] then []
    else
      var prev := GroupsOf(raw[..|raw| - 1], cidades);
      var item := raw[|raw| - 1];
      var cid := CityById(cidades, item.cidadeId);
      if cid.None? then prev
      else Push(prev, OrDefault(cid.value.extra.nomeCidade, "DESCONHECIDO"), OrDefault(cid.value.extra.nomeBairro, "CENTRO"), item.count)
  }

  /** The sum of the counts of the rows whose city is found. */
  function KeptSum(raw: seq<CityCount>, cidades: seq<Cidade>): nat
  {
    if raw == [] then 0
    else KeptSum(raw[..|raw| - 1], cidades) + (if Kept(cidades, raw[|raw| - 1]) then raw[|raw| - 1].count else 0)
  }

  /**
   * The grouping loses nothing but the skipped rows: the group totals add up
   * to the counts of the rows whose city is found, there is one entry per such
   * row, and every group's total is the sum of its entries.
   */
  lemma {:induction false} GroupsOfSpec(raw: seq<CityCount>, cidades: seq<Cidade>)
    ensures var gs := GroupsOf(raw, cidades);
      GroupSum(gs) == KeptSum(raw, cidades) &&
      EntryCount(gs) == CountWhere(raw, (item: CityCount) => Kept(cidades, item)) &&
      Consistent(gs)
    decreases |raw|
  {
    if raw != [] {
      var init, item := raw[..|raw| - 1], raw[|raw| - 1];
      GroupsOfSpec(init, cidades);
      CountLast(raw, (item: CityCount) => Kept(cidades, item));
      var cid := CityById(cidades, item.cidadeId);
      if cid.Some? {
        PushSpec(GroupsOf(init, cidades), OrDefault(cid.value.extra.nomeCidade, "DESCONHECIDO"),
          OrDefault(cid.value.extra.nomeBairro, "CENTRO"), item.count);
      }
    }
  }

  /** Where `Push` finds the city's group, it changes that group in place. */
  lemma {:induction false} PushAt(gs: seq<Group>, city: string, bairro: string, n: nat, k: nat)
    requires FirstWhere(gs, (g: Group) => g.nome == city) == Some(k)
    ensures Push(gs, city, bairro, n) ==
      gs[k := gs[k].(total := gs[k].total + n, bairros := gs[k].bairros + [Bairro(bairro, n)])]
    decreases |gs|
  {
    var g := gs[k].(total := gs[k].total + n, bairros := gs[k].bairros + [Bairro(bairro, n)]);
    if gs[0].nome != city {
      var tail := gs[1..];
      FirstWhereAt(tail, (g: Group) => g.nome == city, k - 1);
      PushAt(tail, city, bairro, n, k - 1);
      assert gs[k := g] == [gs[0]] + tail[k - 1 := g];
    } else {
      assert gs[k := g] == [g] + gs[1..];
    }
  }

  /** Where `Push` finds no group for the city, it appends one holding this entry. */
  lemma {:induction false} PushNew(gs: seq<Group>, city: string, bairro: string, n: nat)
    requires forall i | 0 <= i < |gs| :: gs[i].nome != city
    ensures Push(gs, city, bairro, n) == gs + [Group(city, n, [Bairro(bairro, n)])]
    decreases |gs|
  {
    if gs != [] {
      PushNew(gs[1..], city, bairro, n);
    }
  }

  /** The `forEach` of `getStats` over the grouped rows. */
  method GroupByCity(raw: seq<CityCount>, cidades: seq<Cidade>) returns (gs: seq<Group>)
    ensures gs == GroupsOf(raw, cidades)
  {
    gs := [];
    for n := 0 to |raw|
      invariant gs == GroupsOf(raw[..n], cidades)
    {
      var item := raw[n];
      assert raw[..n + 1][..n] == raw[..n] && raw[..n + 1][n] == item;
      var cid := CityById(cidades, item.cidadeId);
      if cid.None? {
        continue;
      }
      var cityName := OrDefault(cid.value.extra.nomeCidade, "DESCONHECIDO");
      var bairroName := OrDefault(cid.value.extra.nomeBairro, "CENTRO");
      ghost var next := Push(gs, cityName, bairroName, item.count);
      assert GroupsOf(raw[..n + 1], cidades) == next;
      var k := FirstWhere(gs, (g: Group) => g.nome == cityName);
      if k.None? {
        PushNew(gs, cityName, bairroName, item.count);
        gs := gs + [Group(cityName, 0, [])];
        k := Some(|gs| - 1);
        assert [] + [Bairro(bairroName, item.count)] == [Bairro(bairroName, item.count)];
      } else {
        PushAt(gs, cityName, bairroName, item.count, k.value);
      }
      var group := gs[k.value];
      gs := gs[k.value := group.(total := group.total + item.count, bairros := group.bairros + [Bairro(bairroName, item.count)])];
      assert gs == next;
    }
    assert raw[..|raw|] == raw;
  }

  // ---------------------------------------------------------------- ordering

  /** Totals never increase along the sequence. */
  predicate SortedDesc(gs: seq<Group>)
  {
    forall i, j | 0 <= i < j < |gs| :: gs[i].total >= gs[j].total
  }

  /** Places `g` after every group with a total at least its own: a stable insertion. */
  function Insert(g: Group, gs: seq<Group>): seq<Group>
    decreases |gs|
  {
    if gs == [] || gs[0].total < g.total then [g] + gs else [gs[0]] + Insert(g, gs[1..])
  }

  lemma {:induction false} InsertSpec(g: Group, gs: seq<Group>)
    requires SortedDesc(gs)
    ensures SortedDesc(Insert(g, gs)) && multiset(Insert(g, gs)) == multiset(gs) + multiset{g}
    decreases |gs|
  {
    InsertMultiset(g, gs);
    if gs != [] && gs[0].total >= g.total {
      var tail := gs[1..];
      InsertSpec(g, tail);
      var r := Insert(g, gs);
      var rt := Insert(g, tail);
      assert r == [gs[0]] + rt;
      forall j | 0 <= j < |rt| ensures gs[0].total >= rt[j].total {
        assert rt[j] in multiset(rt);
        assert rt[j] == g || rt[j] in multiset(tail);
      }
      forall i, j | 0 <= i < j < |r| ensures r[i].total >= r[j].total {
        assert r[j] == rt[j - 1];
        if i > 0 {
          assert r[i] == rt[i - 1];
        }
      }
    }
  }

  lemma {:induction false} InsertMultiset(g: Group, gs: seq<Group>)
    ensures multiset(Insert(g, gs)) == multiset(gs) + multiset{g}
    decreases |gs|
  {
    if gs != [] && gs[0].total >= g.total {
      InsertMultiset(g, gs[1..]);
      assert gs == [gs[0]] + gs[1..];
    }
  }

  /** `.sort((a, b) => b.total - a.total)`: by total, largest first, equal totals keeping their order. */
  function SortByTotal(gs: seq<Group>): seq<Group>
    decreases |gs|
  {
    if gs == [] then [] else Insert(gs[|gs| - 1], SortByTotal(gs[..|gs| - 1]))
  }

  /** The sort returns the same groups, largest total first. */
  lemma {:induction false} SortByTotalSpec(gs: seq<Group>)
    ensures SortedDesc(SortByTotal(gs)) && multiset(SortByTotal(gs)) == multiset(gs)
    decreases |gs|
  {
    if gs != [] {
      var init := gs[..|gs| - 1];
      SortByTotalSpec(init);
      InsertSpec(gs[|gs| - 1], SortByTotal(init));
      assert gs == init + [gs[|gs| - 1]];
    }
  }

  /** `statsCidade`: the groups, largest total first. */
  function StatsCidade(raw: seq<CityCount>, cidades: seq<Cidade>): seq<Group>
  {
    SortByTotal(GroupsOf(raw, cidades))
  }

  /**
   * `byCidade` holds every group once, largest total first, its totals add up
   * to the counts of the rows whose city is found, and each total is the sum
   * of its entries.
   */
  lemma StatsCidadeSpec(raw: seq<CityCount>, cidades: seq<Cidade>)
    ensures var s := StatsCidade(raw, cidades);
      SortedDesc(s) && multiset(s) == multiset(GroupsOf(raw, cidades)) &&
      GroupSum(s) == KeptSum(raw, cidades) &&
      (forall i, j | 0 <= i < j < |s| :: s[i].nome != s[j].nome) &&
      forall i | 0 <= i < |s| :: s[i].total == BairroSum(s[i].bairros)
  {
    var gs := GroupsOf(raw, cidades);
    GroupsOfSpec(raw, cidades);
    SortByTotalSpec(gs);
    var s := StatsCidade(raw, cidades);
    GroupSumPermutation(gs, s);
    NamesPermutation(gs, s);
    forall i | 0 <= i < |s| ensures s[i].total == BairroSum(s[i].bairros) {
      assert s[i] in multiset(gs);
    }
  }

  lemma {:induction false} GroupSumAppend(x: seq<Group>, y: seq<Group>)
    ensures GroupSum(x + y) == GroupSum(x) + GroupSum(y)
    decreases |x|
  {
    if x == [] {
      assert x + y == y;
    } else {
      assert (x + y)[1..] == x[1..] + y;
      GroupSumAppend(x[1..], y);
    }
  }

  /** Reordering the groups does not change the sum of their totals. */
  lemma {:induction false} GroupSumPermutation(a: seq<Group>, b: seq<Group>)
    requires multiset(a) == multiset(b)
    ensures GroupSum(a) == GroupSum(b)
    decreases |a|
  {
    if a == [] {
      assert |b| == |multiset(b)|;
    } else {
      assert a[0] in multiset(b);
      var k :| 0 <= k < |b| && b[k] == a[0];
      var rest := b[..k] + b[k + 1..];
      DropAt(b, k);
      assert a == [a[0]] + a[1..];
      assert multiset(a[1..]) == multiset(a) - multiset{a[0]};
      GroupSumPermutation(a[1..], rest);
      GroupSumDrop(b, k);
    }
  }

  /** The sum is one group's total plus the sum of the others. */
  lemma GroupSumDrop(b: seq<Group>, k: nat)
    requires k < |b|
    ensures GroupSum(b) == b[k].total + GroupSum(b[..k] + b[k + 1..])
  {
    assert b == b[..k] + ([b[k]] + b[k + 1..]);
    GroupSumAppend(b[..k], [b[k]] + b[k + 1..]);
    GroupSumAppend(b[..k], b[k + 1..]);
    assert ([b[k]] + b[k + 1..])[1..] == b[k + 1..];
  }

  /** Dropping one position removes one copy of its group. */
  lemma DropAt(b: seq<Group>, k: nat)
    requires k < |b|
    ensures multiset(b[..k] + b[k + 1..]) == multiset(b) - multiset{b[k]}
  {
    assert b == b[..k] + [b[k]] + b[k + 1..];
    assert multiset(b) == multiset(b[..k]) + multiset{b[k]} + multiset(b[k + 1..]);
  }

  /** Groups with distinct names hold no group twice. */
  lemma {:induction false} AtMostOnce(a: seq<Group>, x: Group)
    requires forall i, j | 0 <= i < j < |a| :: a[i].nome != a[j].nome
    ensures multiset(a)[x] <= 1
    decreases |a|
  {
    if a != [] {
      assert a == [a[0]] + a[1..];
      AtMostOnce(a[1..], x);
      assert a[0] !in a[1..] by {
        forall j | 0 <= j < |a[1..]| ensures a[1..][j] != a[0] {
          assert a[1..][j] == a[j + 1];
        }
      }
    }
  }

  /** Two positions holding the same group count it twice. */
  lemma TwoPositions(b: seq<Group>, i: nat, j: nat)
    requires i < j < |b|
    ensures b[i] == b[j] ==> multiset(b)[b[i]] >= 2
  {
    assert b == b[..j] + b[j..];
    assert b[i] == b[..j][i] && b[j] == b[j..][0];
  }

  /** Reordering groups with distinct names keeps the names distinct. */
  lemma NamesPermutation(a: seq<Group>, b: seq<Group>)
    requires multiset(a) == multiset(b)
    requires forall i, j | 0 <= i < j < |a| :: a[i].nome != a[j].nome
    ensures forall i, j | 0 <= i < j < |b| :: b[i].nome != b[j].nome
  {
    forall i, j | 0 <= i < j < |b| ensures b[i].nome != b[j].nome {
      TwoPositions(b, i, j);
      AtMostOnce(a, b[i]);
      assert b[i] in multiset(b) && b[j] in multiset(b);
      var p :| 0 <= p < |a| && a[p] == b[i];
      var q :| 0 <= q < |a| && a[q] == b[j];
    }
  }

  // ---------------------------------------------------------------- instrument labels

  /** A `groupBy(['instrumentoId'])` row: an instrument id or null, and its count. */
  datatype InstrumentCount = InstrumentCount(instrumentoId: Option<Id>, count: nat)

  /** `item.instrumentoId ? (instMap.get(id) || 'Desconhecido') : 'Sem Instrumento'`. */
  function Label(instruments: seq<Instrumento>, id: Option<Id>): string
  {
    if id.None? then "Sem Instrumento"
    else
      var k := FirstWhere(instruments, (x: Instrumento) => x.id == id.value);
      OrDefault(if k.Some? then Some(instruments[k.value].nome) else None, "Desconhecido")
  }

  /**
   * A label is never empty: a row without an instrument reads "Sem
   * Instrumento"; a row with one reads the name of the first instrument with
   * that id, or "Desconhecido" when there is none or its name is empty.
   */
  lemma LabelSpec(instruments: seq<Instrumento>, id: Option<Id>)
    ensures Label(instruments, id) != ""
    ensures id.None? ==> Label(instruments, id) == "Sem Instrumento"
    ensures id.Some? && (forall i | 0 <= i < |instruments| :: instruments[i].id != id.value) ==>
      Label(instruments, id) == "Desconhecido"
    ensures id.Some? && Label(instruments, id) != "Desconhecido" ==>
      exists i | 0 <= i < |instruments| :: instruments[i].id == id.value && instruments[i].nome == Label(instruments, id)
  {
  }

  /** `statsInstrumento`: one `{ nome, total }` per grouped row, in order. */
  function InstrumentStats(instruments: seq<Instrumento>, items: seq<InstrumentCount>): seq<(string, nat)>
  {
    seq(|items|, i requires 0 <= i < |items| => (Label(instruments, items[i].instrumentoId), items[i].count))
  }

  // ---------------------------------------------------------------- CSV export

  /** A record with the rows `exportCsv` includes with it. */
  datatype Joined = Joined(r: Registro, evento: Evento, user: User, cidade: Cidade, instrumento: Option<Instrumento>)

  /** The columns of one CSV line, `Data` aside. */
  datatype CsvLine = CsvLine(
    ensaio: string, nome: string, funcao: string, municipio: string, bairro: string,
    cidadeExibicao: string, instrumento: string, presencaConfirmada: string)

  /** One element of `registros.map(...)`. */
  function CsvRow(j: Joined): CsvLine
  {
    CsvLine(
      j.evento.nome,
      OrDefault(Some(j.user.name), j.user.email),
      j.r.funcaoMinisterio,
      OrDefault(j.cidade.extra.nomeCidade, j.cidade.nome),
      OrDefault(j.cidade.extra.nomeBairro, "-"),
      OrDefault(j.cidade.extra.nomeExibicao, j.cidade.nome),
      OrDefault(Or(if j.instrumento.Some? then Some(j.instrumento.value.nome) else None, j.r.instrumentoOutro), "-"),
      "Sim")
  }

  /**
   * The columns with a literal fallback are never empty, the name column is
   * empty only for a user with neither name nor e-mail, and the instrument
   * column shows the joined instrument's name whenever it has one.
   */
  lemma CsvRowSpec(j: Joined)
    ensures var line := CsvRow(j);
      line.bairro != "" && line.instrumento != "" && line.presencaConfirmada == "Sim" &&
      (line.nome == "" <==> j.user.name == "" && j.user.email == "") &&
      (j.cidade.nome != "" ==> line.municipio != "" && line.cidadeExibicao != "") &&
      (j.instrumento.Some? && j.instrumento.value.nome != "" ==> line.instrumento == j.instrumento.value.nome)
  {
  }
}
