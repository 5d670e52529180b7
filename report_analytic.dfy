/**
 * The grouping behind the analytic report of `PdfRelatorioService.gerarAnaliticoPdf`
 * (backend/src/application/services/pdf-relatorio.service.ts): every attendance
 * record of the event counts once for its city and once for its neighbourhood
 * within that city. The records arrive with the name columns of their city row.
 */
module AnalyticReport {
  import opened Wrappers
  import opened Store
  import opened Text
  import opened ReportTally

  /** One entry of `cityGroups`: a city name, its record count, and its neighbourhood counts. */
  datatype CityGroup = CityGroup(city: string, total: nat, bairros: Counts)

  /** `cityGroups`, in the order its keys were first set. */
  type Groups = seq<CityGroup>

  /** `r.cidade.nomeCidade || 'DESCONHECIDO'`. */
  function CityName(c: CityNames): string
  {
    OrDefault(c.nomeCidade, "DESCONHECIDO")
  }

  /** `r.cidade.nomeBairro || 'CENTRO'`. */
  function BairroName(c: CityNames): string
  {
    OrDefault(c.nomeBairro, "CENTRO")
  }

  /** `cityGroups[city]?.total || 0`. */
  function TotalOf(groups: Groups, city: string): nat
  {
    if groups == [] then 0 else if groups[0].city == city then groups[0].total else TotalOf(groups[1..], city)
  }

  /** `cityGroups[city]?.bairros || {}`. */
  function BairrosOf(groups: Groups, city: string): Counts
  {
    if groups == [] then [] else if groups[0].city == city then groups[0].bairros else BairrosOf(groups[1..], city)
  }

  /** Every group's total is the sum of its neighbourhood counts, and no city has two groups. */
  predicate Consistent(groups: Groups)
  {
    (forall i | 0 <= i < |groups| :: groups[i].total == Sum(groups[i].bairros)) &&
    (forall i, j | 0 <= i < j < |groups| :: groups[i].city != groups[j].city)
  }

  /** The sum of all group totals. */
  function GrandTotal(groups: Groups): nat
  {
    if groups == [] then 0 else groups[0].total + GrandTotal(groups[1..])
  }

  /**
   * One record of `city` and `bairro`: the city's group is created when
   * missing, its total goes up by one and so does the neighbourhood's count.
   */
  function Add(groups: Groups, city: string, bairro: string): (r: Groups)
    decreases |groups|
  {
    if groups == [] then [CityGroup(city, 1, Bump([], bairro))]
    else if groups[0].city == city then
      [groups[0].(total := groups[0].total + 1, bairros := Bump(groups[0].bairros, bairro))] + groups[1..]
    else [groups[0]] + Add(groups[1..], city, bairro)
  }

  /**
   * What one record changes: its city's total and its neighbourhood's count go
   * up by one, and every other city keeps its total and its counts.
   */
  lemma {:induction false} AddCounts(groups: Groups, city: string, bairro: string, c: string)
    ensures var r := Add(groups, city, bairro);
      TotalOf(r, c) == TotalOf(groups, c) + (if c == city then 1 else 0) &&
      BairrosOf(r, c) == if c == city then Bump(BairrosOf(groups, city), bairro) else BairrosOf(groups, c)
    decreases |groups|
  {
    if groups != [] && groups[0].city != city {
      var r := Add(groups, city, bairro);
      assert r[0] == groups[0] && r[1..] == Add(groups[1..], city, bairro);
      AddCounts(groups[1..], city, bairro, c);
    }
  }

  /** One record adds one to the sum of the totals. */
  lemma {:induction false} AddGrandTotal(groups: Groups, city: string, bairro: string)
    ensures GrandTotal(Add(groups, city, bairro)) == GrandTotal(groups) + 1
    decreases |groups|
  {
    if groups != [] {
      var r := Add(groups, city, bairro);
      if groups[0].city == city {
        assert r[1..] == groups[1..];
      } else {
        assert r[1..] == Add(groups[1..], city, bairro);
        AddGrandTotal(groups[1..], city, bairro);
      }
    }
  }

  /** One record keeps the groups consistent. */
  lemma {:induction false} AddConsistent(groups: Groups, city: string, bairro: string)
    requires Consistent(groups)
    ensures Consistent(Add(groups, city, bairro))
    decreases |groups|
  {
    var r := Add(groups, city, bairro);
    if groups == [] {
      SumBump([], bairro);
    } else if groups[0].city == city {
      SumBump(groups[0].bairros, bairro);
      assert r[1..] == groups[1..];
    } else {
      var tail := groups[1..];
      assert Consistent(tail);
      AddConsistent(tail, city, bairro);
      assert r[1..] == Add(tail, city, bairro);
      forall j | 1 <= j < |r| ensures r[j].city != groups[0].city {
        CityKept(tail, city, bairro, j - 1);
      }
    }
  }

  /** `Add` only appends a group for `city`: every group it returns is an old one or one for `city`. */
  lemma {:induction false} CityKept(groups: Groups, city: string, bairro: string, j: nat)
    requires j < |Add(groups, city, bairro)|
    ensures Add(groups, city, bairro)[j].city == city || exists i | 0 <= i < |groups| :: groups[i].city == Add(groups, city, bairro)[j].city
    decreases |groups|
  {
    if groups != [] && groups[0].city != city && j > 0 {
      CityKept(groups[1..], city, bairro, j - 1);
      var r := Add(groups, city, bairro);
      assert r[j] == Add(groups[1..], city, bairro)[j - 1];
      if r[j].city != city {
        var i :| 0 <= i < |groups[1..]| && groups[1..][i].city == r[j].city;
        assert groups[i + 1].city == r[j].city;
      }
    }
  }

  /** `cityGroups` after the records, in order. */
  function GroupsOf(rows: seq<CityNames>): Groups
    decreases |rows|
  {
    if rows == [] then []
    else
      var c := rows[|rows| - 1];
      Add(GroupsOf(rows[..|rows| - 1]), CityName(c), BairroName(c))
  }

  /**
   * The grouping counts every record exactly once: each city's total is the
   * number of its records, each neighbourhood count the number of records of
   * that city and neighbourhood, all totals add up to the number of records,
   * and each group's total is the sum of its neighbourhood counts.
   */
  lemma {:induction false} GroupsCount(rows: seq<CityNames>, city: string, bairro: string)
    ensures var g := GroupsOf(rows);
      TotalOf(g, city) == CountWhere(rows, (c: CityNames) => CityName(c) == city) &&
      CountOf(BairrosOf(g, city), bairro) == CountWhere(rows, (c: CityNames) => CityName(c) == city && BairroName(c) == bairro) &&
      GrandTotal(g) == |rows| && Consistent(g)
    decreases |rows|
  {
    if rows != [] {
      var init, c := rows[..|rows| - 1], rows[|rows| - 1];
      GroupsCount(init, city, bairro);
      AddCounts(GroupsOf(init), CityName(c), BairroName(c), city);
      AddGrandTotal(GroupsOf(init), CityName(c), BairroName(c));
      AddConsistent(GroupsOf(init), CityName(c), BairroName(c));
      CountLast(rows, (c: CityNames) => CityName(c) == city);
      CountLast(rows, (c: CityNames) => CityName(c) == city && BairroName(c) == bairro);
    }
  }

  // ---------------------------------------------------------------- the report's loop

  /** Where `Add` finds the city's group, it changes that group in place. */
  lemma {:induction false} AddAt(groups: Groups, city: string, bairro: string, k: nat)
    requires FirstWhere(groups, (g: CityGroup) => g.city == city) == Some(k)
    ensures Add(groups, city, bairro) ==
      groups[k := groups[k].(total := groups[k].total + 1, bairros := Bump(groups[k].bairros, bairro))]
    decreases |groups|
  {
    var g := groups[k].(total := groups[k].total + 1, bairros := Bump(groups[k].bairros, bairro));
    if groups[0].city != city {
      var tail := groups[1..];
      FirstWhereAt(tail, (g: CityGroup) => g.city == city, k - 1);
      AddAt(tail, city, bairro, k - 1);
      assert groups[k := g] == [groups[0]] + tail[k - 1 := g];
    } else {
      assert groups[k := g] == [g] + groups[1..];
    }
  }

  /** Where `Add` finds no group for the city, it appends one holding this record. */
  lemma {:induction false} AddNew(groups: Groups, city: string, bairro: string)
    requires forall i | 0 <= i < |groups| :: groups[i].city != city
    ensures Add(groups, city, bairro) == groups + [CityGroup(city, 1, Bump([], bairro))]
    decreases |groups|
  {
    if groups != [] {
      AddNew(groups[1..], city, bairro);
    }
  }

  /** The `forEach` of `gerarAnaliticoPdf` over the event's records. */
  method GroupCities(rows: seq<CityNames>) returns (groups: Groups)
    ensures groups == GroupsOf(rows)
  {
    groups := [];
    for n := 0 to |rows|
      invariant groups == GroupsOf(rows[..n])
    {
      var cityName := CityName(rows[n]);
      var bairroName := BairroName(rows[n]);
      assert rows[..n + 1][..n] == rows[..n] && rows[..n + 1][n] == rows[n];
      ghost var next := Add(groups, cityName, bairroName);
      assert GroupsOf(rows[..n + 1]) == next;
      var k := FirstWhere(groups, (g: CityGroup) => g.city == cityName);
      if k.None? {
        AddNew(groups, cityName, bairroName);
        groups := groups + [CityGroup(cityName, 0, [])];
        k := Some(|groups| - 1);
      } else {
        AddAt(groups, cityName, bairroName, k.value);
      }
      var g := groups[k.value];
      groups := groups[k.value := g.(total := g.total + 1, bairros := Bump(g.bairros, bairroName))];
      assert groups == next;
    }
    assert rows[..|rows|] == rows;
  }
}
