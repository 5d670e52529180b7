/**
 * The tally behind the event report of `PdfRelatorioService.gerarPdf`
 * (backend/src/application/services/pdf-relatorio.service.ts): every
 * attendance record of the event is counted once under a ministry, as an
 * organist, or as a musician under one official instrument name. The PDF
 * drawing around it is not modelled.
 */
module ReportTally {
  import opened Wrappers
  import opened Store
  import opened Text

  // ---------------------------------------------------------------- fixed tables

  /** A block of `ESTRUTURA_OFICIAL`: a category and its official instrument names, in sheet order. */
  datatype Category = Category(categoria: string, instrumentos: seq<string>)

  const Structure: seq<Category> := [
    Category("CORDAS", ["Violino", "Viola", "Violoncello"]),
    Category("MADEIRAS", [
      "Flauta", "Flauta Alto", "Flauta Baixo", "Oboé", "Oboé D'Amore",
      "Corne Inglês", "Fagote", "Contra-Fagote", "Clarinete", "Clarinete Alto",
      "Clarinete Contra-Alto", "Clarinete Baixo", "Clarinete Contra-Baixo",
      "Saxofone Soprano", "Saxofone Alto", "Saxofone Tenor", "Saxofone Barítono",
      "Saxofone Baixo", "Acordeon"]),
    Category("METAIS", [
      "Trompete", "Cornet", "Pocket", "Flugel Horn", "Trompa",
      "Trombonito", "Trombone", "Barítono De Pisto", "Sax Horn / Genes",
      "Bombardino / Euphonio", "Tuba"])]

  /** `INSTRUMENTO_MAP` in its key order: a spelling to look for, and the official name it counts under. */
  const InstrumentMap: seq<(string, string)> := [
    ("VIOLINO", "Violino"), ("VIOLA", "Viola"), ("VIOLONCELO", "Violoncello"), ("VIOLONCELLO", "Violoncello"),
    ("FLAUTA", "Flauta"), ("OBOE", "Oboé"), ("FAGOTE", "Fagote"), ("CLARINETE", "Clarinete"), ("CLARINETA", "Clarinete"),
    ("SAXOFONE SOPRANO", "Saxofone Soprano"), ("SAXOFONE ALTO", "Saxofone Alto"), ("SAXOFONE TENOR", "Saxofone Tenor"),
    ("SAXOFONE BARITONO", "Saxofone Barítono"), ("TROMPETE", "Trompete"), ("TROMBONE", "Trombone"), ("TUBA", "Tuba"),
    ("BOMBARDINO", "Bombardino / Euphonio"), ("EUPHONIO", "Bombardino / Euphonio"), ("TROMPA", "Trompa"),
    ("ORGAO", "ÓRGÃO"), ("ÓRGÃO", "ÓRGÃO")]

  /** The keys of `minCounts`. */
  datatype Ministry = ANCIAO | DIACONO | COOPERADOR | COOPERADOR_JOVENS | REGIONAL | EXAMINADORA | LOCAL | INSTRUTOR

  // ---------------------------------------------------------------- classification of one record

  /** `func`: the record's function upper-cased (not trimmed). */
  function FuncText(r: Registro): string
  {
    ToUpper(r.funcaoMinisterio)
  }

  /** The joined `instrumento` row's name; the join does not look at the deletion stamp. */
  function InstrumentName(instrumentos: seq<Instrumento>, id: Option<Id>): Option<string>
  {
    if id.None? then None
    else
      var k := FirstWhere(instrumentos, (x: Instrumento) => x.id == id.value);
      if k.Some? then Some(instrumentos[k.value].nome) else None
  }

  /** `inst`: the instrument's name, else the free-text instrument, else '', upper-cased and trimmed. */
  function InstText(r: Registro, instrumentos: seq<Instrumento>): string
  {
    Trim(ToUpper(OrDefault(Or(InstrumentName(instrumentos, r.instrumentoId), r.instrumentoOutro), "")))
  }

  /** The ministry counter a function increments: the first rule that matches, in the service's order. */
  function MinistryOf(func: string): Option<Ministry>
  {
    if Contains(func, "ANCIAO") || Contains(func, "ANCIÃO") then Some(ANCIAO)
    else if Contains(func, "DIACONO") || Contains(func, "DIÁCONO") then Some(DIACONO)
    else if Contains(func, "COOP") && !Contains(func, "JOVEN") then Some(COOPERADOR)
    else if Contains(func, "JOVEN") then Some(COOPERADOR_JOVENS)
    else if Contains(func, "REGIONAL") then Some(REGIONAL)
    else if Contains(func, "EXAMINADORA") then Some(EXAMINADORA)
    else if Contains(func, "LOCAL") then Some(LOCAL)
    else if Contains(func, "INSTRUTOR") then Some(INSTRUTOR)
    else None
  }

  /** `isOrgao`. */
  predicate IsOrgan(func: string, inst: string)
  {
    Contains(inst, "ÓRGÃO") || Contains(inst, "ORGAO") || func == "ORGANISTA"
  }

  /** The first key of `table`, in table order, that occurs in the instrument text. */
  function MapMatch(inst: string, table: seq<(string, string)>): (r: Option<nat>)
    ensures r.Some? ==> r.value < |table| && Contains(inst, table[r.value].0)
    ensures r.None? ==> forall i | 0 <= i < |table| :: !Contains(inst, table[i].0)
  {
    FirstWhere(table, (e: (string, string)) => Contains(inst, e.0))
  }

  /** `inst.includes(nome.toUpperCase())`: whether the text names an official name. */
  function Sees(inst: string): string -> bool
  {
    (n: string) => Contains(inst, ToUpper(n))
  }

  /** The first official name `found` accepts, category by category and then in list order. */
  function StructureMatch(found: string -> bool, cats: seq<Category>): Option<string>
    decreases |cats|
  {
    if cats == [] then None
    else
      var k := FirstWhere(cats[0].instrumentos, found);
      if k.Some? then Some(cats[0].instrumentos[k.value]) else StructureMatch(found, cats[1..])
  }

  /**
   * A name the sheet search returns is an official name of some category that
   * `found` accepts; when it returns nothing, `found` accepts no official name.
   */
  lemma {:induction false} StructureMatchSpec(found: string -> bool, cats: seq<Category>)
    ensures var r := StructureMatch(found, cats);
      (r.Some? ==> found(r.value) && exists c | 0 <= c < |cats| :: r.value in cats[c].instrumentos) &&
      (r.None? ==> forall c, i | 0 <= c < |cats| && 0 <= i < |cats[c].instrumentos| :: !found(cats[c].instrumentos[i]))
    decreases |cats|
  {
    if cats != [] {
      var k := FirstWhere(cats[0].instrumentos, found);
      if k.None? {
        var tail := cats[1..];
        StructureMatchSpec(found, tail);
        var r := StructureMatch(found, tail);
        if r.Some? {
          var c :| 0 <= c < |tail| && r.value in tail[c].instrumentos;
          assert tail[c] == cats[c + 1];
        } else {
          forall c, i | 0 <= c < |cats| && 0 <= i < |cats[c].instrumentos|
            ensures !found(cats[c].instrumentos[i])
          {
            if c > 0 {
              assert cats[c] == tail[c - 1];
            }
          }
        }
      }
    }
  }

  /**
   * The official name a musician is counted under, if any: the spelling
   * table first, the official sheet only when no key matches.
   */
  function OfficialNameIn(inst: string, table: seq<(string, string)>, cats: seq<Category>): Option<string>
  {
    var m := MapMatch(inst, table);
    if m.Some? then Some(table[m.value].1) else StructureMatch(Sees(inst), cats)
  }

  /** The two lookup tables of the service: the spelling map and the official sheet. */
  datatype Tables = Tables(spellings: seq<(string, string)>, sheet: seq<Category>)

  /** `INSTRUMENTO_MAP` and `ESTRUTURA_OFICIAL`. */
  const Official := Tables(InstrumentMap, Structure)

  /** Upper-cased from position `j` on, `name` reads `key`. */
  predicate UpperAt(name: string, key: string, j: nat)
  {
    (j + |key| <= |name|) && (forall t | 0 <= t < |key| :: UpperChar(name[j + t]) == key[t])
  }

  /** Where `name` reads `key` upper-cased, its upper-case form holds `key`. */
  lemma UpperAtOccurs(name: string, key: string, j: nat)
    requires UpperAt(name, key, j)
    ensures OccursAt(ToUpper(name), key, j)
  {
    assert ToUpper(name)[j..j + |key|] == key;
  }

  /**
   * `name` is shadowed by the spelling table: no spelling maps to it, and its
   * upper-case form holds one of the spelling keys.
   */
  ghost predicate Shadowed(spellings: seq<(string, string)>, name: string)
  {
    (forall i | 0 <= i < |spellings| :: spellings[i].1 != name) &&
    exists k: nat, j: nat | k < |spellings| :: UpperAt(name, spellings[k].0, j)
  }

  /**
   * A shadowed name is never the official name of anything: any text that
   * names it also holds the key, and the spelling table is searched first.
   */
  lemma ShadowedName(inst: string, tables: Tables, name: string)
    requires Shadowed(tables.spellings, name)
    ensures OfficialNameIn(inst, tables.spellings, tables.sheet) != Some(name)
  {
    var m := MapMatch(inst, tables.spellings);
    if m.None? {
      var r := StructureMatch(Sees(inst), tables.sheet);
      StructureMatchSpec(Sees(inst), tables.sheet);
      if r == Some(name) {
        var k: nat, j: nat :| k < |tables.spellings| && UpperAt(name, tables.spellings[k].0, j);
        assert Sees(inst)(name);
        UpperAtOccurs(name, tables.spellings[k].0, j);
        ContainsInner(inst, ToUpper(name), tables.spellings[k].0, j);
        assert false;
      }
    }
  }

  /** The witness for `Shadowed`: the key at `k`, read from position `j` of the name. */
  lemma ShadowedBy(spellings: seq<(string, string)>, name: string, k: nat, j: nat)
    requires k < |spellings| && UpperAt(name, spellings[k].0, j)
    requires forall i | 0 <= i < |spellings| :: spellings[i].1 != name
    ensures Shadowed(spellings, name)
  {
  }

  lemma FlautaAltoShadowed()
    ensures Shadowed(InstrumentMap, "Flauta Alto")
  {
    assert InstrumentMap[4].0 == "FLAUTA" && UpperAt("Flauta Alto", "FLAUTA", 0);
    assert forall i | 0 <= i < |InstrumentMap| :: InstrumentMap[i].1 != "Flauta Alto";
    ShadowedBy(InstrumentMap, "Flauta Alto", 4, 0);
  }

  lemma FlautaBaixoShadowed()
    ensures Shadowed(InstrumentMap, "Flauta Baixo")
  {
    assert InstrumentMap[4].0 == "FLAUTA" && UpperAt("Flauta Baixo", "FLAUTA", 0);
    assert forall i | 0 <= i < |InstrumentMap| :: InstrumentMap[i].1 != "Flauta Baixo";
    ShadowedBy(InstrumentMap, "Flauta Baixo", 4, 0);
  }

  lemma ContraFagoteShadowed()
    ensures Shadowed(InstrumentMap, "Contra-Fagote")
  {
    assert InstrumentMap[6].0 == "FAGOTE" && UpperAt("Contra-Fagote", "FAGOTE", 7);
    assert forall i | 0 <= i < |InstrumentMap| :: InstrumentMap[i].1 != "Contra-Fagote";
    ShadowedBy(InstrumentMap, "Contra-Fagote", 6, 7);
  }

  lemma ClarineteAltoShadowed()
    ensures Shadowed(InstrumentMap, "Clarinete Alto")
  {
    assert InstrumentMap[7].0 == "CLARINETE" && UpperAt("Clarinete Alto", "CLARINETE", 0);
    assert forall i | 0 <= i < |InstrumentMap| :: InstrumentMap[i].1 != "Clarinete Alto";
    ShadowedBy(InstrumentMap, "Clarinete Alto", 7, 0);
  }

  lemma ClarineteContraAltoShadowed()
    ensures Shadowed(InstrumentMap, "Clarinete Contra-Alto")
  {
    assert InstrumentMap[7].0 == "CLARINETE" && UpperAt("Clarinete Contra-Alto", "CLARINETE", 0);
    assert forall i | 0 <= i < |InstrumentMap| :: InstrumentMap[i].1 != "Clarinete Contra-Alto";
    ShadowedBy(InstrumentMap, "Clarinete Contra-Alto", 7, 0);
  }

  lemma ClarineteBaixoShadowed()
    ensures Shadowed(InstrumentMap, "Clarinete Baixo")
  {
    assert InstrumentMap[7].0 == "CLARINETE" && UpperAt("Clarinete Baixo", "CLARINETE", 0);
    assert forall i | 0 <= i < |InstrumentMap| :: InstrumentMap[i].1 != "Clarinete Baixo";
    ShadowedBy(InstrumentMap, "Clarinete Baixo", 7, 0);
  }

  lemma ClarineteContraBaixoShadowed()
    ensures Shadowed(InstrumentMap, "Clarinete Contra-Baixo")
  {
    assert InstrumentMap[7].0 == "CLARINETE" && UpperAt("Clarinete Contra-Baixo", "CLARINETE", 0);
    assert forall i | 0 <= i < |InstrumentMap| :: InstrumentMap[i].1 != "Clarinete Contra-Baixo";
    ShadowedBy(InstrumentMap, "Clarinete Contra-Baixo", 7, 0);
  }

  /**
   * Seven names of `ESTRUTURA_OFICIAL` are shadowed, so their rows of the
   * report always read 0: "Flauta Alto" and "Flauta Baixo" hold the key
   * "FLAUTA", "Contra-Fagote" holds "FAGOTE", and the four larger clarinets
   * hold "CLARINETE".
   */
  lemma OfficialShadowed()
    ensures Shadowed(InstrumentMap, "Flauta Alto") && Shadowed(InstrumentMap, "Flauta Baixo")
    ensures Shadowed(InstrumentMap, "Contra-Fagote")
    ensures Shadowed(InstrumentMap, "Clarinete Alto") && Shadowed(InstrumentMap, "Clarinete Contra-Alto")
    ensures Shadowed(InstrumentMap, "Clarinete Baixo") && Shadowed(InstrumentMap, "Clarinete Contra-Baixo")
  {
    FlautaAltoShadowed();
    FlautaBaixoShadowed();
    ContraFagoteShadowed();
    ClarineteAltoShadowed();
    ClarineteContraAltoShadowed();
    ClarineteBaixoShadowed();
    ClarineteContraBaixoShadowed();
  }

  // ---------------------------------------------------------------- the counters

  /** `counts`: official name to count, in the order the names were first counted. */
  type Counts = seq<(string, nat)>

  /** `counts[name] || 0`. */
  function CountOf(counts: Counts, name: string): nat
  {
    if counts == [] then 0 else if counts[0].0 == name then counts[0].1 else CountOf(counts[1..], name)
  }

  /** `counts[name] = (counts[name] || 0) + 1`. */
  function Bump(counts: Counts, name: string): (r: Counts)
    ensures CountOf(r, name) == CountOf(counts, name) + 1
    ensures forall n | n != name :: CountOf(r, n) == CountOf(counts, n)
    decreases |counts|
  {
    if counts == [] then [(name, 1)]
    else if counts[0].0 == name then [(name, counts[0].1 + 1)] + counts[1..]
    else [counts[0]] + Bump(counts[1..], name)
  }

  /** The sum of all official-name counts. */
  function Sum(counts: Counts): nat
  {
    if counts == [] then 0 else counts[0].1 + Sum(counts[1..])
  }

  lemma {:induction false} SumBump(counts: Counts, name: string)
    ensures Sum(Bump(counts, name)) == Sum(counts) + 1
    decreases |counts|
  {
    if counts != [] && counts[0].0 != name {
      SumBump(counts[1..], name);
      assert Bump(counts, name)[1..] == Bump(counts[1..], name);
    }
  }

  /** `minCounts`: one counter per ministry, all starting at 0. */
  datatype MinCounts = MinCounts(
    anciao: nat, diacono: nat, cooperador: nat, cooperadorJovens: nat,
    regional: nat, examinadora: nat, local: nat, instrutor: nat)
  {
    function Get(m: Ministry): nat
    {
      match m
      case ANCIAO => anciao
      case DIACONO => diacono
      case COOPERADOR => cooperador
      case COOPERADOR_JOVENS => cooperadorJovens
      case REGIONAL => regional
      case EXAMINADORA => examinadora
      case LOCAL => local
      case INSTRUTOR => instrutor
    }

    function Total(): nat
    {
      anciao + diacono + cooperador + cooperadorJovens + regional + examinadora + local + instrutor
    }

    /** `minCounts[m]++`: that counter goes up by one and no other moves. */
    function Inc(m: Ministry): (r: MinCounts)
      ensures forall k: Ministry :: r.Get(k) == Get(k) + (if k == m then 1 else 0)
      ensures r.Total() == Total() + 1
    {
      match m
      case ANCIAO => this.(anciao := anciao + 1)
      case DIACONO => this.(diacono := diacono + 1)
      case COOPERADOR => this.(cooperador := cooperador + 1)
      case COOPERADOR_JOVENS => this.(cooperadorJovens := cooperadorJovens + 1)
      case REGIONAL => this.(regional := regional + 1)
      case EXAMINADORA => this.(examinadora := examinadora + 1)
      case LOCAL => this.(local := local + 1)
      case INSTRUTOR => this.(instrutor := instrutor + 1)
    }
  }

  datatype Tally = Tally(minCounts: MinCounts, counts: Counts, totalOrganistas: nat, totalMusicosSoproCordas: nat)
  {
    /** `totalGeral`. */
    function TotalGeral(): nat
    {
      totalMusicosSoproCordas + totalOrganistas
    }
  }

  /** One record's effect on the tally: the body of the `forEach`. */
  function Step(t: Tally, func: string, inst: string, tables: Tables): Tally
  {
    var ministry := MinistryOf(func);
    var t1 := if ministry.Some? then t.(minCounts := t.minCounts.Inc(ministry.value)) else t;
    if IsOrgan(func, inst) then t1.(totalOrganistas := t1.totalOrganistas + 1)
    else if inst != "" then
      var name := OfficialNameIn(inst, tables.spellings, tables.sheet);
      t1.(totalMusicosSoproCordas := t1.totalMusicosSoproCordas + 1,
          counts := if name.Some? then Bump(t1.counts, name.value) else t1.counts)
    else t1
  }

  /** The tally after the records, in order. */
  function TallyOf(regs: seq<Registro>, instrumentos: seq<Instrumento>, tables: Tables): Tally
    decreases |regs|
  {
    if regs == [] then Tally(MinCounts(0, 0, 0, 0, 0, 0, 0, 0), [], 0, 0)
    else
      var r := regs[|regs| - 1];
      Step(TallyOf(regs[..|regs| - 1], instrumentos, tables), FuncText(r), InstText(r, instrumentos), tables)
  }

  // ---------------------------------------------------------------- what the tally counts

  predicate Organist(r: Registro, instrumentos: seq<Instrumento>)
  {
    IsOrgan(FuncText(r), InstText(r, instrumentos))
  }

  predicate Musician(r: Registro, instrumentos: seq<Instrumento>)
  {
    !Organist(r, instrumentos) && InstText(r, instrumentos) != ""
  }

  /** The official name a record is counted under, when it is counted as a musician. */
  function CountedName(r: Registro, instrumentos: seq<Instrumento>, tables: Tables): Option<string>
  {
    if Musician(r, instrumentos) then OfficialNameIn(InstText(r, instrumentos), tables.spellings, tables.sheet) else None
  }

  /** One record adds one to `totalOrganistas` exactly when it is an organist. */
  lemma StepOrganists(t: Tally, r: Registro, instrumentos: seq<Instrumento>, tables: Tables)
    ensures Step(t, FuncText(r), InstText(r, instrumentos), tables).totalOrganistas ==
      t.totalOrganistas + (if Organist(r, instrumentos) then 1 else 0)
  {
  }

  /** One record adds one to `totalMusicosSoproCordas` exactly when it is a musician. */
  lemma StepMusicians(t: Tally, r: Registro, instrumentos: seq<Instrumento>, tables: Tables)
    ensures Step(t, FuncText(r), InstText(r, instrumentos), tables).totalMusicosSoproCordas ==
      t.totalMusicosSoproCordas + (if Musician(r, instrumentos) then 1 else 0)
  {
  }

  /** One record adds one to the counter of its ministry and to no other. */
  lemma StepMinistry(t: Tally, r: Registro, instrumentos: seq<Instrumento>, tables: Tables, m: Ministry)
    ensures Step(t, FuncText(r), InstText(r, instrumentos), tables).minCounts.Get(m) ==
      t.minCounts.Get(m) + (if MinistryOf(FuncText(r)) == Some(m) then 1 else 0)
  {
  }

  /** One record adds one to the count of the name it is counted under and to no other. */
  lemma StepName(t: Tally, r: Registro, instrumentos: seq<Instrumento>, tables: Tables, n: string)
    ensures CountOf(Step(t, FuncText(r), InstText(r, instrumentos), tables).counts, n) ==
      CountOf(t.counts, n) + (if CountedName(r, instrumentos, tables) == Some(n) then 1 else 0)
  {
  }

  /** `totalOrganistas` is the number of organists among the records. */
  lemma {:induction false} OrganistsCounted(regs: seq<Registro>, instrumentos: seq<Instrumento>, tables: Tables)
    ensures TallyOf(regs, instrumentos, tables).totalOrganistas == CountWhere(regs, (r: Registro) => Organist(r, instrumentos))
    decreases |regs|
  {
    if regs != [] {
      var init, r := regs[..|regs| - 1], regs[|regs| - 1];
      OrganistsCounted(init, instrumentos, tables);
      StepOrganists(TallyOf(init, instrumentos, tables), r, instrumentos, tables);
      CountLast(regs, (r: Registro) => Organist(r, instrumentos));
    }
  }

  /** `totalMusicosSoproCordas` is the number of other records that name an instrument. */
  lemma {:induction false} MusiciansCounted(regs: seq<Registro>, instrumentos: seq<Instrumento>, tables: Tables)
    ensures TallyOf(regs, instrumentos, tables).totalMusicosSoproCordas == CountWhere(regs, (r: Registro) => Musician(r, instrumentos))
    decreases |regs|
  {
    if regs != [] {
      var init, r := regs[..|regs| - 1], regs[|regs| - 1];
      MusiciansCounted(init, instrumentos, tables);
      StepMusicians(TallyOf(init, instrumentos, tables), r, instrumentos, tables);
      CountLast(regs, (r: Registro) => Musician(r, instrumentos));
    }
  }

  /** Each ministry counter is the number of records whose function falls under that ministry. */
  lemma {:induction false} MinistriesCounted(regs: seq<Registro>, instrumentos: seq<Instrumento>, tables: Tables, m: Ministry)
    ensures TallyOf(regs, instrumentos, tables).minCounts.Get(m) == CountWhere(regs, (r: Registro) => MinistryOf(FuncText(r)) == Some(m))
    decreases |regs|
  {
    if regs != [] {
      var init, r := regs[..|regs| - 1], regs[|regs| - 1];
      MinistriesCounted(init, instrumentos, tables, m);
      StepMinistry(TallyOf(init, instrumentos, tables), r, instrumentos, tables, m);
      CountLast(regs, (r: Registro) => MinistryOf(FuncText(r)) == Some(m));
    }
  }

  /** Each official-name count is the number of musicians counted under that name. */
  lemma {:induction false} NamesCounted(regs: seq<Registro>, instrumentos: seq<Instrumento>, tables: Tables, n: string)
    ensures CountOf(TallyOf(regs, instrumentos, tables).counts, n) == CountWhere(regs, (r: Registro) => CountedName(r, instrumentos, tables) == Some(n))
    decreases |regs|
  {
    if regs != [] {
      var init, r := regs[..|regs| - 1], regs[|regs| - 1];
      NamesCounted(init, instrumentos, tables, n);
      StepName(TallyOf(init, instrumentos, tables), r, instrumentos, tables, n);
      CountLast(regs, (r: Registro) => CountedName(r, instrumentos, tables) == Some(n));
    }
  }

  /** A shadowed name's count stays 0 whatever the records are. */
  lemma ShadowedNeverCounted(regs: seq<Registro>, instrumentos: seq<Instrumento>, tables: Tables, name: string)
    requires Shadowed(tables.spellings, name)
    ensures CountOf(TallyOf(regs, instrumentos, tables).counts, name) == 0
  {
    NamesCounted(regs, instrumentos, tables, name);
    forall j | 0 <= j < |regs| ensures CountedName(regs[j], instrumentos, tables) != Some(name) {
      ShadowedName(InstText(regs[j], instrumentos), tables, name);
    }
  }

  /** Every spelling that maps to "ÓRGÃO" is one of the two organ keys. */
  ghost predicate OrganOnlyByKey(spellings: seq<(string, string)>)
  {
    forall i | 0 <= i < |spellings| :: spellings[i].1 == "ÓRGÃO" ==> spellings[i].0 == "ORGAO" || spellings[i].0 == "ÓRGÃO"
  }

  /** `INSTRUMENTO_MAP` maps to "ÓRGÃO" only from "ORGAO" and "ÓRGÃO". */
  lemma OfficialOrganOnlyByKey()
    ensures OrganOnlyByKey(InstrumentMap)
  {
    assert forall i | 0 <= i < 19 :: InstrumentMap[i].1 != "ÓRGÃO";
  }

  /**
   * A text is never given an upper-case name it does not hold itself, unless
   * it holds a spelling key that maps to that name.
   */
  lemma NotNamedWithoutKey(inst: string, tables: Tables, name: string)
    requires UpperAt(name, name, 0) && !Contains(inst, name)
    requires forall i | 0 <= i < |tables.spellings| && tables.spellings[i].1 == name :: !Contains(inst, tables.spellings[i].0)
    ensures OfficialNameIn(inst, tables.spellings, tables.sheet) != Some(name)
  {
    if MapMatch(inst, tables.spellings).None? && StructureMatch(Sees(inst), tables.sheet) == Some(name) {
      StructureMatchSpec(Sees(inst), tables.sheet);
      SeesUpper(inst, name);
    }
  }

  /** A name that is already upper case is seen by the sheet only in a text that holds it. */
  lemma SeesUpper(inst: string, name: string)
    requires Sees(inst)(name) && UpperAt(name, name, 0)
    ensures Contains(inst, name)
  {
    UpperAtOccurs(name, name, 0);
    ContainsInner(inst, ToUpper(name), name, 0);
  }


  /** A text without either organ key is never named "ÓRGÃO". */
  lemma OrganNotNamed(inst: string, tables: Tables)
    requires OrganOnlyByKey(tables.spellings) && !Contains(inst, "ÓRGÃO") && !Contains(inst, "ORGAO")
    ensures OfficialNameIn(inst, tables.spellings, tables.sheet) != Some("ÓRGÃO")
  {
    assert UpperAt("ÓRGÃO", "ÓRGÃO", 0);
    NotNamedWithoutKey(inst, tables, "ÓRGÃO");
  }

  /** Organs are counted only as organists: the "ÓRGÃO" count stays 0. */
  lemma OrganNeverCounted(regs: seq<Registro>, instrumentos: seq<Instrumento>, tables: Tables)
    requires OrganOnlyByKey(tables.spellings)
    ensures CountOf(TallyOf(regs, instrumentos, tables).counts, "ÓRGÃO") == 0
  {
    NamesCounted(regs, instrumentos, tables, "ÓRGÃO");
    forall j | 0 <= j < |regs| ensures CountedName(regs[j], instrumentos, tables) != Some("ÓRGÃO") {
      if Musician(regs[j], instrumentos) {
        OrganNotNamed(InstText(regs[j], instrumentos), tables);
      }
    }
  }

  /** One record moves `Sum(counts)` by at most the one it adds to `totalMusicosSoproCordas`. */
  lemma StepSum(t: Tally, r: Registro, instrumentos: seq<Instrumento>, tables: Tables)
    ensures Sum(Step(t, FuncText(r), InstText(r, instrumentos), tables).counts) <=
      Sum(t.counts) + (if Musician(r, instrumentos) then 1 else 0)
  {
    var func, inst := FuncText(r), InstText(r, instrumentos);
    var ministry := MinistryOf(func);
    var t1 := if ministry.Some? then t.(minCounts := t.minCounts.Inc(ministry.value)) else t;
    assert t1.counts == t.counts;
    var s := Step(t, func, inst, tables);
    var name := OfficialNameIn(inst, tables.spellings, tables.sheet);
    if IsOrgan(func, inst) || inst == "" {
      assert s.counts == t.counts;
    } else if name.Some? {
      assert s.counts == Bump(t.counts, name.value);
      SumBump(t.counts, name.value);
    } else {
      assert s.counts == t.counts;
    }
  }

  /**
   * The totals are bounded by the records: `totalGeral` and the ministry
   * counters never exceed the number of records, and the official-name counts
   * never add up to more than `totalMusicosSoproCordas`.
   */
  lemma {:induction false} TallyBounds(regs: seq<Registro>, instrumentos: seq<Instrumento>, tables: Tables)
    ensures var t := TallyOf(regs, instrumentos, tables);
      t.minCounts.Total() <= |regs| && t.TotalGeral() <= |regs| && Sum(t.counts) <= t.totalMusicosSoproCordas
    decreases |regs|
  {
    if regs != [] {
      var init, r := regs[..|regs| - 1], regs[|regs| - 1];
      TallyBounds(init, instrumentos, tables);
      var t := TallyOf(init, instrumentos, tables);
      StepSum(t, r, instrumentos, tables);
      StepOrganists(t, r, instrumentos, tables);
      StepMusicians(t, r, instrumentos, tables);
      var ministry := MinistryOf(FuncText(r));
      if ministry.Some? {
        assert t.minCounts.Inc(ministry.value).Total() == t.minCounts.Total() + 1;
      }
    }
  }

  // ---------------------------------------------------------------- the category totals

  /** The counts of some official names added up, `counts[b] || 0` for each. */
  function NamesTotal(counts: Counts, names: seq<string>): nat
  {
    if names == [] then 0 else CountOf(counts, names[0]) + NamesTotal(counts, names[1..])
  }

  /** `catTotal`: the counts of one category's instruments. */
  function CategoryTotal(counts: Counts, cat: Category): nat
  {
    NamesTotal(counts, cat.instrumentos)
  }

  /** The category totals of a sheet, block by block. */
  function SheetTotal(counts: Counts, cats: seq<Category>): nat
  {
    if cats == [] then 0 else CategoryTotal(counts, cats[0]) + SheetTotal(counts, cats[1..])
  }

  /** The official names of a sheet, block by block. */
  function SheetNames(cats: seq<Category>): seq<string>
  {
    if cats == [] then [] else cats[0].instrumentos + SheetNames(cats[1..])
  }

  predicate NamesDistinct(names: seq<string>)
  {
    forall i, j | 0 <= i < j < |names| :: names[i] != names[j]
  }

  lemma {:induction false} NamesTotalAppend(counts: Counts, a: seq<string>, b: seq<string>)
    ensures NamesTotal(counts, a + b) == NamesTotal(counts, a) + NamesTotal(counts, b)
    decreases |a|
  {
    if a == [] {
      assert a + b == b;
    } else {
      assert (a + b)[1..] == a[1..] + b;
      NamesTotalAppend(counts, a[1..], b);
    }
  }

  lemma {:induction false} SheetTotalIsNames(counts: Counts, cats: seq<Category>)
    ensures SheetTotal(counts, cats) == NamesTotal(counts, SheetNames(cats))
    decreases |cats|
  {
    if cats != [] {
      SheetTotalIsNames(counts, cats[1..]);
      NamesTotalAppend(counts, cats[0].instrumentos, SheetNames(cats[1..]));
    }
  }

  /** Names that skip the first entry's name count as they would without that entry. */
  lemma {:induction false} NamesTotalSkip(counts: Counts, names: seq<string>)
    requires counts != [] && counts[0].0 !in names
    ensures NamesTotal(counts, names) == NamesTotal(counts[1..], names)
    decreases |names|
  {
    if names != [] {
      NamesTotalSkip(counts, names[1..]);
    }
  }

  /** Dropping the first entry lowers a total over distinct names by at most that entry's count. */
  lemma {:induction false} NamesTotalTail(counts: Counts, names: seq<string>)
    requires counts != [] && NamesDistinct(names)
    ensures NamesTotal(counts, names) <= counts[0].1 + NamesTotal(counts[1..], names)
    decreases |names|
  {
    if names != [] {
      assert NamesDistinct(names[1..]) by {
        forall i, j | 0 <= i < j < |names[1..]| ensures names[1..][i] != names[1..][j] {
          assert names[1..][i] == names[i + 1] && names[1..][j] == names[j + 1];
        }
      }
      if names[0] == counts[0].0 {
        assert counts[0].0 !in names[1..] by {
          forall j | 0 <= j < |names[1..]| ensures names[1..][j] != names[0] {
            assert names[1..][j] == names[j + 1];
          }
        }
        NamesTotalSkip(counts, names[1..]);
      } else {
        NamesTotalTail(counts, names[1..]);
      }
    }
  }

  /** Over distinct names, the counts add up to at most the sum of all counts. */
  lemma {:induction false} NamesTotalBound(counts: Counts, names: seq<string>)
    requires NamesDistinct(names)
    ensures NamesTotal(counts, names) <= Sum(counts)
    decreases |counts|
  {
    if counts == [] {
      NamesTotalEmpty(names);
    } else {
      NamesTotalTail(counts, names);
      NamesTotalBound(counts[1..], names);
    }
  }

  lemma {:induction false} NamesTotalEmpty(names: seq<string>)
    ensures NamesTotal([], names) == 0
    decreases |names|
  {
    if names != [] {
      NamesTotalEmpty(names[1..]);
    }
  }

  /**
   * The category percentages are shares of `totalMusicosSoproCordas`: on a
   * sheet that lists each name once, the category totals add up to at most the
   * musician total.
   */
  lemma CategoriesWithinMusicians(regs: seq<Registro>, instrumentos: seq<Instrumento>, tables: Tables)
    requires NamesDistinct(SheetNames(tables.sheet))
    ensures var t := TallyOf(regs, instrumentos, tables);
      SheetTotal(t.counts, tables.sheet) <= t.totalMusicosSoproCordas
  {
    var t := TallyOf(regs, instrumentos, tables);
    TallyBounds(regs, instrumentos, tables);
    SheetTotalIsNames(t.counts, tables.sheet);
    NamesTotalBound(t.counts, SheetNames(tables.sheet));
  }

  // ---------------------------------------------------------------- the report's loop

  /** The `for ... of Object.entries(INSTRUMENTO_MAP)` loop: the first key found in the text. */
  method MatchSpelling(inst: string, table: seq<(string, string)>) returns (name: Option<string>)
    ensures name == (var m := MapMatch(inst, table); if m.Some? then Some(table[m.value].1) else None)
  {
    name := None;
    var i := 0;
    while i < |table|
      invariant 0 <= i <= |table|
      invariant forall j | 0 <= j < i :: !Contains(inst, table[j].0)
    {
      if Contains(inst, table[i].0) {
        FirstWhereAt(table, (e: (string, string)) => Contains(inst, e.0), i);
        return Some(table[i].1);
      }
      i := i + 1;
    }
  }

  /** The inner `for` over one category's names: the first one `found` accepts. */
  method MatchNames(found: string -> bool, names: seq<string>) returns (k: Option<nat>)
    ensures k == FirstWhere(names, found)
  {
    var j := 0;
    while j < |names|
      invariant 0 <= j <= |names|
      invariant forall i | 0 <= i < j :: !found(names[i])
    {
      if found(names[j]) {
        FirstWhereAt(names, found, j);
        return Some(j);
      }
      j := j + 1;
    }
    k := None;
  }

  /** The sheet search from block `c` on: block `c` first, then the blocks after it. */
  lemma StructureMatchFrom(found: string -> bool, cats: seq<Category>, c: nat)
    requires c < |cats|
    ensures StructureMatch(found, cats[c..]) ==
      var k := FirstWhere(cats[c].instrumentos, found);
      if k.Some? then Some(cats[c].instrumentos[k.value]) else StructureMatch(found, cats[c + 1..])
  {
    assert cats[c..][0] == cats[c] && cats[c..][1..] == cats[c + 1..];
  }

  /** The outer `for` over `ESTRUTURA_OFICIAL`, category by category. */
  method MatchSheet(inst: string, cats: seq<Category>) returns (name: Option<string>)
    ensures name == StructureMatch(Sees(inst), cats)
  {
    var c := 0;
    while c < |cats|
      invariant 0 <= c <= |cats|
      invariant StructureMatch(Sees(inst), cats) == StructureMatch(Sees(inst), cats[c..])
    {
      StructureMatchFrom(Sees(inst), cats, c);
      var k := MatchNames(Sees(inst), cats[c].instrumentos);
      if k.Some? {
        return Some(cats[c].instrumentos[k.value]);
      }
      c := c + 1;
    }
    name := None;
  }

  /** The search of `gerarPdf`: the spelling map, then the sheet only when no key matched. */
  method MatchOfficial(inst: string, tables: Tables) returns (name: Option<string>)
    ensures name == OfficialNameIn(inst, tables.spellings, tables.sheet)
  {
    name := MatchSpelling(inst, tables.spellings);
    if name.None? {
      name := MatchSheet(inst, tables.sheet);
    }
  }

  /** `gerarPdf`'s `forEach` over the event's records, counter by counter. */
  method GerarTally(regs: seq<Registro>, instrumentos: seq<Instrumento>) returns (t: Tally)
    ensures t == TallyOf(regs, instrumentos, Official)
  {
    var minCounts := MinCounts(0, 0, 0, 0, 0, 0, 0, 0);
    var counts: Counts := [];
    var totalOrganistas, totalMusicosSoproCordas := 0, 0;
    var tables := Official;
    for i := 0 to |regs|
      invariant Tally(minCounts, counts, totalOrganistas, totalMusicosSoproCordas) == TallyOf(regs[..i], instrumentos, tables)
    {
      var r := regs[i];
      var func := FuncText(r);
      var inst := InstText(r, instrumentos);
      assert regs[..i + 1][..i] == regs[..i] && regs[..i + 1][i] == r;
      assert TallyOf(regs[..i + 1], instrumentos, tables) ==
        Step(Tally(minCounts, counts, totalOrganistas, totalMusicosSoproCordas), func, inst, tables);
      var ministry := MinistryOf(func);
      if ministry.Some? {
        minCounts := minCounts.Inc(ministry.value);
      }
      if IsOrgan(func, inst) {
        totalOrganistas := totalOrganistas + 1;
      } else if inst != "" {
        totalMusicosSoproCordas := totalMusicosSoproCordas + 1;
        var name := MatchOfficial(inst, tables);
        if name.Some? {
          counts := Bump(counts, name.value);
        }
      }
    }
    assert regs[..|regs|] == regs;
    t := Tally(minCounts, counts, totalOrganistas, totalMusicosSoproCordas);
  }
}
