/**
 * Name normalisation used by attendance registration: `normalizeString`
 * (trim, upper-case, canonical decomposition, accent stripping, whitespace
 * collapsing), the instrument synonym table and the "CITY - NEIGHBOURHOOD"
 * parser.
 */
module Normalization {
  import opened Wrappers
  import opened Text

  /** The combining diacritical marks U+0300-U+036F removed after decomposition. */
  predicate IsCombiningMark(c: char)
  {
    '\U{0300}' <= c <= '\U{036F}'
  }

  /**
   * The base letter of a precomposed Latin-1 capital (and of U+0178) under
   * canonical decomposition; characters without a decomposition are their own base.
   */
  function BaseLetter(c: char): char
  {
    if '\U{00C0}' <= c <= '\U{00C5}' then 'A'
    else if c == '\U{00C7}' then 'C'
    else if '\U{00C8}' <= c <= '\U{00CB}' then 'E'
    else if '\U{00CC}' <= c <= '\U{00CF}' then 'I'
    else if c == '\U{00D1}' then 'N'
    else if '\U{00D2}' <= c <= '\U{00D6}' then 'O'
    else if '\U{00D9}' <= c <= '\U{00DC}' then 'U'
    else if c == '\U{00DD}' || c == '\U{0178}' then 'Y'
    else c
  }

  /** The combining mark that canonical decomposition puts after the base letter. */
  function MarkOf(c: char): Option<char>
  {
    match c
    case '\U{00C0}' => Some('\U{0300}') case '\U{00C1}' => Some('\U{0301}')
    case '\U{00C2}' => Some('\U{0302}') case '\U{00C3}' => Some('\U{0303}')
    case '\U{00C4}' => Some('\U{0308}') case '\U{00C5}' => Some('\U{030A}')
    case '\U{00C7}' => Some('\U{0327}')
    case '\U{00C8}' => Some('\U{0300}') case '\U{00C9}' => Some('\U{0301}')
    case '\U{00CA}' => Some('\U{0302}') case '\U{00CB}' => Some('\U{0308}')
    case '\U{00CC}' => Some('\U{0300}') case '\U{00CD}' => Some('\U{0301}')
    case '\U{00CE}' => Some('\U{0302}') case '\U{00CF}' => Some('\U{0308}')
    case '\U{00D1}' => Some('\U{0303}')
    case '\U{00D2}' => Some('\U{0300}') case '\U{00D3}' => Some('\U{0301}')
    case '\U{00D4}' => Some('\U{0302}') case '\U{00D5}' => Some('\U{0303}')
    case '\U{00D6}' => Some('\U{0308}')
    case '\U{00D9}' => Some('\U{0300}') case '\U{00DA}' => Some('\U{0301}')
    case '\U{00DB}' => Some('\U{0302}') case '\U{00DC}' => Some('\U{0308}')
    case '\U{00DD}' => Some('\U{0301}') case '\U{0178}' => Some('\U{0308}')
    case _ => None
  }

  function Decompose(c: char): (r: string)
    ensures 1 <= |r| <= 2 && r[0] == BaseLetter(c)
    ensures |r| == 2 ==> IsCombiningMark(r[1])
  {
    match MarkOf(c)
    case None => [c]
    case Some(m) => [BaseLetter(c), m]
  }

  /** `normalize('NFD')` on the characters this model decomposes. */
  function Nfd(s: string): string
  {
    if s == [] then [] else Decompose(s[0]) + Nfd(s[1..])
  }

  /** `replace(/[\u0300-\u036f]/g, '')`: drops every combining mark. */
  function StripMarks(s: string): (r: string)
    ensures forall i | 0 <= i < |r| :: !IsCombiningMark(r[i])
    ensures |r| <= |s|
  {
    if s == [] then []
    else if IsCombiningMark(s[0]) then StripMarks(s[1..])
    else [s[0]] + StripMarks(s[1..])
  }

  /** The text whose characters are the base letters of those of `s`. */
  function Bases(s: string): (r: string)
    ensures |r| == |s| && forall i | 0 <= i < |s| :: r[i] == BaseLetter(s[i])
  {
    if s == [] then [] else [BaseLetter(s[0])] + Bases(s[1..])
  }

  lemma StripMarksAppend(a: string, b: string)
    ensures StripMarks(a + b) == StripMarks(a) + StripMarks(b)
  {
    if a == [] {
      assert a + b == b;
    } else {
      assert (a + b)[0] == a[0];
      assert (a + b)[1..] == a[1..] + b;
      StripMarksAppend(a[1..], b);
    }
  }

  /** Decomposing and then stripping the marks replaces each letter by its base letter. */
  lemma {:induction false} StripNfd(s: string)
    requires forall i | 0 <= i < |s| :: !IsCombiningMark(s[i])
    ensures StripMarks(Nfd(s)) == Bases(s)
    decreases |s|
  {
    if s != [] {
      StripNfd(s[1..]);
      StripMarksAppend(Decompose(s[0]), Nfd(s[1..]));
      StripDecompose(s[0]);
      assert Bases(s) == [BaseLetter(s[0])] + Bases(s[1..]);
    }
  }

  lemma StripDecompose(c: char)
    requires !IsCombiningMark(c)
    ensures StripMarks(Decompose(c)) == [BaseLetter(c)]
  {
    var d := Decompose(c);
    assert !IsCombiningMark(d[0]);
    if |d| == 2 {
      assert d == [d[0]] + [d[1]];
      StripMarksAppend([d[0]], [d[1]]);
    }
  }

  /** `normalizeString`: the registration key of a free-text name. */
  function NormalizeString(text: string): string
  {
    CollapseSpaces(StripMarks(Nfd(ToUpper(Trim(text)))))
  }

  /** The key carries no combining mark and every whitespace run is one plain space. */
  lemma NormalizeStringShape(text: string)
    ensures var r := NormalizeString(text);
      && Collapsed(r)
      && (forall i | 0 <= i < |r| :: !IsCombiningMark(r[i]))
  {
    var stripped := StripMarks(Nfd(ToUpper(Trim(text))));
    var r := CollapseSpaces(stripped);
    CollapseSpacesSpec(stripped);
    forall i | 0 <= i < |r| ensures !IsCombiningMark(r[i]) {
      CollapseKeepsChars(stripped, i);
    }
  }

  /** Every character of a collapsed text is a plain space or comes from the input. */
  lemma {:induction false} CollapseKeepsChars(s: string, i: int)
    requires 0 <= i < |CollapseSpaces(s)|
    ensures CollapseSpaces(s)[i] == ' ' || CollapseSpaces(s)[i] in s
    decreases |s|
  {
    if IsSpace(s[0]) {
      var tail := s[1..];
      var rest := TrimStart(tail);
      assert CollapseSpaces(s) == [' '] + CollapseSpaces(rest);
      if i > 0 {
        TrimStartSpec(tail);
        var k := |tail| - |rest|;
        assert rest == tail[k..];
        CollapseKeepsChars(rest, i - 1);
        var c := CollapseSpaces(rest)[i - 1];
        if c in rest {
          var j :| 0 <= j < |rest| && rest[j] == c;
          assert rest[j] == s[1 + k + j];
        }
      }
    } else if i > 0 {
      var tail := s[1..];
      assert CollapseSpaces(s) == [s[0]] + CollapseSpaces(tail);
      CollapseKeepsChars(tail, i - 1);
      var c := CollapseSpaces(tail)[i - 1];
      if c in tail {
        var j :| 0 <= j < |tail| && tail[j] == c;
        assert tail[j] == s[j + 1];
      }
    }
  }

  /** Upper- or lower-case spellings of a name share its key. */
  lemma NormalizeIgnoresCase(text: string)
    ensures NormalizeString(ToUpper(text)) == NormalizeString(text)
  {
    TrimToUpperCommute(text);
    ToUpperIdempotent(Trim(text));
  }

  /** Whitespace around a name does not change its key. */
  lemma NormalizeIgnoresPadding(pre: string, text: string, post: string)
    requires forall i | 0 <= i < |pre| :: IsSpace(pre[i])
    requires forall i | 0 <= i < |post| :: IsSpace(post[i])
    ensures NormalizeString(pre + text + post) == NormalizeString(text)
  {
    TrimPadding(pre, text, post);
  }

  // ---------------------------------------------------------------- concrete keys

  /** The facts that make `normalizeString(s)` equal to `key`, stated so each can be checked on its own. */
  lemma NormalizeTo(s: string, upper: string, key: string)
    requires Trim(s) == s && ToUpper(s) == upper
    requires forall i | 0 <= i < |upper| :: !IsCombiningMark(upper[i])
    requires Bases(upper) == key && Collapsed(key)
    ensures NormalizeString(s) == key
  {
    StripNfd(upper);
    CollapseOfCollapsed(key);
  }

  /** A capitalised ASCII name with single inner spaces is its own key. */
  predicate IsCanonicalAscii(k: string)
  {
    && (forall i | 0 <= i < |k| :: 'A' <= k[i] <= 'Z' || k[i] == ' ')
    && (k != [] ==> k[0] != ' ' && k[|k| - 1] != ' ')
    && (forall i | 0 <= i < |k| - 1 :: k[i] != ' ' || k[i + 1] != ' ')
  }

  lemma CanonicalIsOwnKey(k: string)
    requires IsCanonicalAscii(k)
    ensures NormalizeString(k) == k
  {
    CanonicalUpper(k);
    KeyOfUpper(k, k);
  }

  /** A string whose upper-casing is a canonical ASCII key normalises to that key. */
  lemma KeyOfUpper(s: string, k: string)
    requires ToUpper(s) == k && IsCanonicalAscii(k)
    ensures NormalizeString(s) == k
  {
    if s != [] {
      UpperCharSpec(s[0]);
      UpperCharSpec(s[|s| - 1]);
    }
    TrimOfTrimmed(s);
    CanonicalBare(k);
    NormalizeTo(s, k, k);
  }

  lemma CanonicalBare(k: string)
    requires IsCanonicalAscii(k)
    ensures Collapsed(k) && Bases(k) == k
    ensures forall i | 0 <= i < |k| :: !IsCombiningMark(k[i])
  {
    CanonicalCollapsed(k);
    CanonicalNoMarks(k);
    CanonicalBases(k);
  }

  lemma CanonicalCollapsed(k: string)
    requires IsCanonicalAscii(k)
    ensures Collapsed(k)
  {
  }

  lemma CanonicalNoMarks(k: string)
    requires IsCanonicalAscii(k)
    ensures forall i | 0 <= i < |k| :: !IsCombiningMark(k[i])
  {
  }

  lemma CanonicalUpper(k: string)
    requires forall i | 0 <= i < |k| :: 'A' <= k[i] <= 'Z' || k[i] == ' '
    ensures ToUpper(k) == k
  {
    forall i | 0 <= i < |k| ensures ToUpper(k)[i] == k[i] {
    }
  }

  lemma CanonicalBases(k: string)
    requires forall i | 0 <= i < |k| :: 'A' <= k[i] <= 'Z' || k[i] == ' '
    ensures Bases(k) == k
  {
    forall i | 0 <= i < |k| ensures Bases(k)[i] == k[i] {
    }
  }

  // ---------------------------------------------------------------- normalizeInstrumentName

  /** The synonym table, in its declaration order: registration key and stored spelling. */
  const Synonyms: seq<(string, string)> := [
    ("VIOLONCELO", "VIOLONCELLO"),
    ("OBOE", "OBO\U{00C9}"),
    ("ORGAO", "\U{00D3}RG\U{00C3}O"),
    ("TUBA", "TUBA"),
    ("EUFONIO", "EUPH\U{00D4}NIO"),
    ("BOMBARDINO", "BOMBARDINO"),
    ("SAXOFONE", "SAXOFONE"),
    ("CLARINETA", "CLARINETE"),
    ("FLAUTA TRANSVERSAL", "FLAUTA")
  ]

  /** The normalised key of every entry, computed as the lookup loop computes `normKey`. */
  function SynonymKeys(table: seq<(string, string)>): seq<string>
  {
    seq(|table|, i requires 0 <= i < |table| => NormalizeString(table[i].0))
  }

  /** The position of the first key equal to `key`: the loop's early return. */
  function FirstMatch(keys: seq<string>, key: string): (r: Option<nat>)
    ensures r.Some? ==> r.value < |keys| && keys[r.value] == key
    ensures r.Some? ==> forall j | 0 <= j < r.value :: keys[j] != key
    ensures r.None? ==> key !in keys
  {
    if keys == [] then None
    else if keys[0] == key then Some(0)
    else match FirstMatch(keys[1..], key)
      case None => None
      case Some(k) => Some(k + 1)
  }

  /** `FirstMatch` finds position `i` exactly when `key` sits there and nowhere before it. */
  lemma FirstMatchAt(keys: seq<string>, key: string, i: nat)
    requires i < |keys| && keys[i] == key
    requires forall j | 0 <= j < i :: keys[j] != key
    ensures FirstMatch(keys, key) == Some(i)
  {
  }

  /** The synonym lookup of `normalizeInstrumentName` over a given table. */
  function ApplySynonyms(table: seq<(string, string)>, name: string): string
  {
    var normalized := NormalizeString(name);
    match FirstMatch(SynonymKeys(table), normalized)
    case Some(i) => ToUpper(table[i].1)
    case None => normalized
  }

  /** `normalizeInstrumentName`. */
  function NormalizeInstrumentName(name: string): string
  {
    ApplySynonyms(Synonyms, name)
  }

  /** A name whose key first matches entry `i` maps to that entry's upper-cased spelling. */
  lemma ApplySynonymsFirstMatch(table: seq<(string, string)>, name: string, i: nat)
    requires i < |table| && NormalizeString(table[i].0) == NormalizeString(name)
    requires forall j | 0 <= j < i :: NormalizeString(table[j].0) != NormalizeString(name)
    ensures ApplySynonyms(table, name) == ToUpper(table[i].1)
  {
    var key, keys := NormalizeString(name), SynonymKeys(table);
    assert keys[i] == key;
    forall j | 0 <= j < i ensures keys[j] != key {
      assert keys[j] == NormalizeString(table[j].0);
    }
    var found := FirstMatch(keys, key);
    assert found.Some?;
    assert found.value == i;
  }

  /** A name whose key matches no entry maps to its own key. */
  lemma ApplySynonymsNoMatch(table: seq<(string, string)>, name: string)
    requires forall j | 0 <= j < |table| :: NormalizeString(table[j].0) != NormalizeString(name)
    ensures ApplySynonyms(table, name) == NormalizeString(name)
  {
    KeyNotAmongKeys(table, NormalizeString(name));
    FirstMatchAbsent(SynonymKeys(table), NormalizeString(name));
  }

  lemma FirstMatchAbsent(keys: seq<string>, key: string)
    requires key !in keys
    ensures FirstMatch(keys, key) == None
  {
  }

  lemma KeyNotAmongKeys(table: seq<(string, string)>, key: string)
    requires forall j | 0 <= j < |table| :: NormalizeString(table[j].0) != key
    ensures key !in SynonymKeys(table)
  {
    var keys := SynonymKeys(table);
    forall j | 0 <= j < |keys| ensures keys[j] != key {
      assert keys[j] == NormalizeString(table[j].0);
    }
  }

  // ---------------------------------------------------------------- parseCidade

  datatype CityParts = CityParts(cidade: string, bairro: string, exibicao: string)

  /** `parts.map(p => p.trim())`. */
  function TrimAll(parts: seq<string>): seq<string>
  {
    seq(|parts|, i requires 0 <= i < |parts| => Trim(parts[i]))
  }

  /** `parseCidade`: city, neighbourhood and display text of a "CITY - NEIGHBOURHOOD" entry. */
  function ParseCidade(text: string): CityParts
  {
    PartsOfKey(NormalizeString(text))
  }

  /** The split of an already normalised key into its parts. */
  function PartsOfKey(normalized: string): CityParts
  {
    var parts := TrimAll(Split(normalized, "-"));
    CityParts(
      if parts[0] != "" then parts[0] else "DESCONHECIDO",
      if |parts| > 1 then Join(parts[1..], " - ") else "CENTRO",
      normalized)
  }

  /** The display text is the normalised input. */
  lemma ParseCidadeDisplay(text: string)
    ensures ParseCidade(text).exibicao == NormalizeString(text)
  {
  }

  /** Without a '-' the whole key is the city and the neighbourhood is "CENTRO". */
  lemma ParseCidadeWithoutDash(text: string)
    requires !Contains(NormalizeString(text), "-")
    ensures var key := NormalizeString(text);
      ParseCidade(text) == CityParts(if Trim(key) != "" then Trim(key) else "DESCONHECIDO", "CENTRO", key)
  {
    var key := NormalizeString(text);
    assert Split(key, "-") == [key];
  }

  /** A key of the form "CITY - NEIGHBOURHOOD" splits back into its two parts. */
  lemma ParseCidadeOfDisplay(text: string, city: string, bairro: string)
    requires NormalizeString(text) == city + " - " + bairro
    requires city != [] && !IsSpace(city[0]) && !IsSpace(city[|city| - 1]) && '-' !in city
    requires bairro != [] && !IsSpace(bairro[0]) && !IsSpace(bairro[|bairro| - 1]) && '-' !in bairro
    ensures ParseCidade(text) == CityParts(city, bairro, city + " - " + bairro)
  {
    PartsOfDisplay(city, bairro);
  }

  lemma PartsOfDisplay(city: string, bairro: string)
    requires city != [] && !IsSpace(city[0]) && !IsSpace(city[|city| - 1]) && '-' !in city
    requires bairro != [] && !IsSpace(bairro[0]) && !IsSpace(bairro[|bairro| - 1]) && '-' !in bairro
    ensures PartsOfKey(city + " - " + bairro) == CityParts(city, bairro, city + " - " + bairro)
  {
    var key := city + " - " + bairro;
    SplitDisplay(city, bairro);
    TrimPaddedPart(city, [], " ");
    TrimPaddedPart(bairro, " ", []);
    assert [] + city + " " == city + " ";
    assert " " + bairro + [] == " " + bairro;
    TrimAllPair(city + " ", " " + bairro);
    PartsOfPair(key, city, bairro);
  }

  lemma TrimAllPair(a: string, b: string)
    ensures TrimAll([a, b]) == [Trim(a), Trim(b)]
  {
    var t := TrimAll([a, b]);
    assert |t| == 2 && t[0] == Trim(a) && t[1] == Trim(b);
  }

  lemma PartsOfPair(key: string, city: string, bairro: string)
    requires TrimAll(Split(key, "-")) == [city, bairro] && city != []
    ensures PartsOfKey(key) == CityParts(city, bairro, key)
  {
    assert [city, bairro][1..] == [bairro];
  }

  lemma TrimPaddedPart(s: string, pre: string, post: string)
    requires s != [] && !IsSpace(s[0]) && !IsSpace(s[|s| - 1])
    requires forall i | 0 <= i < |pre| :: IsSpace(pre[i])
    requires forall i | 0 <= i < |post| :: IsSpace(post[i])
    ensures Trim(pre + s + post) == s
  {
    TrimPadding(pre, s, post);
    TrimOfTrimmed(s);
  }

  lemma SplitDisplay(city: string, bairro: string)
    requires '-' !in city && '-' !in bairro
    ensures Split(city + " - " + bairro, "-") == [city + " ", " " + bairro]
  {
    var key := city + " - " + bairro;
    var n := |city|;
    DashAfterCity(city, bairro);
    assert IndexOf(key, "-") == Some(n + 1);
    assert key[..n + 1] == city + " ";
    assert key[n + 2..] == " " + bairro;
    AbsentChar(" " + bairro, "-", '-');
    assert Split(" " + bairro, "-") == [" " + bairro];
  }

  /** The first '-' of "CITY - NEIGHBOURHOOD" is the separator. */
  lemma DashAfterCity(city: string, bairro: string)
    requires '-' !in city
    ensures OccursAt(city + " - " + bairro, "-", |city| + 1)
    ensures forall j | 0 <= j < |city| + 1 :: !OccursAt(city + " - " + bairro, "-", j)
  {
    var key := city + " - " + bairro;
    var n := |city|;
    assert key[n + 1..n + 2] == "-";
    forall j | 0 <= j < n + 1 ensures !OccursAt(key, "-", j) {
      assert key[j..j + 1][0] == key[j];
      if j < n {
        assert key[j] == city[j];
      } else {
        assert key[j] == ' ';
      }
    }
  }
}
