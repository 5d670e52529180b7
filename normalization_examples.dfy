/**
 * Concrete keys of `normalizeString`, `normalizeInstrumentName` and the synonym table.
 * Each example takes its input as a parameter fixed by `requires`, so the verifier reasons
 * from the general lemmas instead of evaluating the whole pipeline on a literal.
 */
module NormalizationExamples {
  import opened Wrappers
  import opened Text
  import opened Normalization

  /** An accented spelling reaches a canonical key through its upper-casing and base letters. */
  lemma AccentedKey(s: string, upper: string, key: string)
    requires Trim(s) == s && ToUpper(s) == upper && Bases(upper) == key
    requires forall i | 0 <= i < |upper| :: !IsCombiningMark(upper[i])
    requires IsCanonicalAscii(key)
    ensures NormalizeString(s) == key
  {
    CanonicalCollapsed(key);
    NormalizeTo(s, upper, key);
  }

  lemma CampinasCanonical(k: string)
    requires k == "CAMPINAS"
    ensures IsCanonicalAscii(k)
  {
  }

  lemma CampinasUpper(s: string)
    requires s == "campinas" || s == "Campinas"
    ensures ToUpper(s) == "CAMPINAS"
  {
  }

  /** Case does not matter: "campinas" and "Campinas" both give "CAMPINAS". */
  lemma CampinasKey(s: string)
    requires s == "campinas" || s == "Campinas"
    ensures NormalizeString(s) == "CAMPINAS"
  {
    CampinasUpper(s);
    CampinasCanonical("CAMPINAS");
    KeyOfUpper(s, "CAMPINAS");
  }

  /** Surrounding whitespace does not matter: "  campinas " and every other padding gives "CAMPINAS". */
  lemma PaddedCampinasKey(pre: string, s: string, post: string)
    requires s == "campinas"
    requires forall i | 0 <= i < |pre| :: IsSpace(pre[i])
    requires forall i | 0 <= i < |post| :: IsSpace(post[i])
    ensures NormalizeString(pre + s + post) == "CAMPINAS"
  {
    CampinasKey(s);
    NormalizeIgnoresPadding(pre, s, post);
  }

  /** Accents do not matter: "Órgão" gives "ORGAO". */
  lemma OrgaoKey(s: string)
    requires s == "\U{00D3}rg\U{00E3}o"
    ensures NormalizeString(s) == "ORGAO"
  {
    var upper := "\U{00D3}RG\U{00C3}O";
    OrgaoTrim(s);
    OrgaoUpper(s);
    OrgaoBases(upper);
    OrgaoNoMarks(upper);
    OrgaoCanonical("ORGAO");
    AccentedKey(s, upper, "ORGAO");
  }

  lemma OrgaoTrim(s: string)
    requires s == "\U{00D3}rg\U{00E3}o"
    ensures Trim(s) == s
  {
    TrimOfTrimmed(s);
  }

  lemma OrgaoUpper(s: string)
    requires s == "\U{00D3}rg\U{00E3}o"
    ensures ToUpper(s) == "\U{00D3}RG\U{00C3}O"
  {
  }

  lemma OrgaoBases(upper: string)
    requires upper == "\U{00D3}RG\U{00C3}O"
    ensures Bases(upper) == "ORGAO"
  {
  }

  lemma OrgaoNoMarks(upper: string)
    requires upper == "\U{00D3}RG\U{00C3}O"
    ensures forall i | 0 <= i < |upper| :: !IsCombiningMark(upper[i])
  {
  }

  lemma OrgaoCanonical(k: string)
    requires k == "ORGAO"
    ensures IsCanonicalAscii(k)
  {
  }

  /** The first components of a table. */
  function Firsts(table: seq<(string, string)>): (keys: seq<string>)
    ensures |keys| == |table| && forall i | 0 <= i < |table| :: keys[i] == table[i].0
  {
    seq(|table|, i requires 0 <= i < |table| => table[i].0)
  }

  /** A table whose registration keys are canonical ASCII names is looked up by those keys. */
  lemma SynonymKeysOfCanonical(table: seq<(string, string)>)
    requires forall i | 0 <= i < |table| :: IsCanonicalAscii(table[i].0)
    ensures SynonymKeys(table) == Firsts(table)
  {
    forall i | 0 <= i < |table| ensures SynonymKeys(table)[i] == table[i].0 {
      CanonicalIsOwnKey(table[i].0);
    }
  }

  /** The registration keys of the synonym table are canonical ASCII names. */
  lemma SynonymsCanonical()
    ensures forall i | 0 <= i < |Synonyms| :: IsCanonicalAscii(Synonyms[i].0)
  {
    CanonicalHead();
    CanonicalMiddle();
    CanonicalTail();
  }

  lemma CanonicalHead()
    ensures IsCanonicalAscii(Synonyms[0].0) && IsCanonicalAscii(Synonyms[1].0) && IsCanonicalAscii(Synonyms[2].0)
  {
  }

  lemma CanonicalMiddle()
    ensures IsCanonicalAscii(Synonyms[3].0) && IsCanonicalAscii(Synonyms[4].0) && IsCanonicalAscii(Synonyms[5].0)
  {
  }

  lemma CanonicalTail()
    ensures IsCanonicalAscii(Synonyms[6].0) && IsCanonicalAscii(Synonyms[7].0) && IsCanonicalAscii(Synonyms[8].0)
  {
  }

  /** `normalizeInstrumentName` looks the key up among the table's own first components. */
  lemma InstrumentNameByKey(s: string, key: string)
    requires NormalizeString(s) == key
    ensures var m := FirstMatch(Firsts(Synonyms), key);
      NormalizeInstrumentName(s) == if m.Some? then ToUpper(Synonyms[m.value].1) else key
  {
    SynonymsCanonical();
    SynonymKeysOfCanonical(Synonyms);
  }

  /** A name whose key is found at entry `i` is stored as that entry's upper-cased value. */
  lemma SynonymAt(s: string, key: string, i: nat)
    requires i < |Synonyms| && NormalizeString(s) == key
    requires FirstMatch(Firsts(Synonyms), key) == Some(i)
    ensures NormalizeInstrumentName(s) == ToUpper(Synonyms[i].1)
  {
    InstrumentNameByKey(s, key);
  }

  /** A key present in the table is found at its first position. */
  lemma KeyPosition(key: string, i: nat)
    requires i < |Synonyms| && Synonyms[i].0 == key
    requires forall j | 0 <= j < i :: Synonyms[j].0 != key
    ensures FirstMatch(Firsts(Synonyms), key) == Some(i)
  {
    FirstMatchAt(Firsts(Synonyms), key, i);
  }

  /** The chain behind every synonym example, free of concrete strings. */
  lemma SynonymExample(s: string, i: nat, value: string)
    requires i < |Synonyms| && ToUpper(s) == Synonyms[i].0
    requires FirstMatch(Firsts(Synonyms), Synonyms[i].0) == Some(i)
    requires ToUpper(Synonyms[i].1) == value
    ensures NormalizeInstrumentName(s) == value
  {
    SynonymsCanonical();
    KeyOfUpper(s, Synonyms[i].0);
    SynonymAt(s, Synonyms[i].0, i);
  }

  lemma ClarinetaKey(s: string)
    requires s == "clarineta"
    ensures ToUpper(s) == "CLARINETA"
  {
  }

  lemma ClarinetaEntry()
    ensures Synonyms[7].0 == "CLARINETA" && FirstMatch(Firsts(Synonyms), "CLARINETA") == Some(7)
    ensures Synonyms[7].1 == "CLARINETE"
  {
    KeyPosition("CLARINETA", 7);
  }

  lemma ClarinetaValue(v: string)
    requires v == "CLARINETE"
    ensures ToUpper(v) == v
  {
    CanonicalUpper(v);
  }

  /** "clarineta" is stored as "CLARINETE". */
  lemma ClarinetaSynonym(s: string)
    requires s == "clarineta"
    ensures NormalizeInstrumentName(s) == "CLARINETE"
  {
    ClarinetaKey(s);
    ClarinetaEntry();
    ClarinetaValue("CLARINETE");
    SynonymExample(s, 7, "CLARINETE");
  }

  lemma VioloncelloKey(s: string)
    requires s == "violoncelo"
    ensures ToUpper(s) == "VIOLONCELO"
  {
  }

  lemma VioloncelloEntry()
    ensures Synonyms[0].0 == "VIOLONCELO" && FirstMatch(Firsts(Synonyms), "VIOLONCELO") == Some(0)
    ensures Synonyms[0].1 == "VIOLONCELLO"
  {
    KeyPosition("VIOLONCELO", 0);
  }

  lemma VioloncelloValue(v: string)
    requires v == "VIOLONCELLO"
    ensures ToUpper(v) == v
  {
    CanonicalUpper(v);
  }

  /** "violoncelo" is stored as "VIOLONCELLO". */
  lemma VioloncelloSynonym(s: string)
    requires s == "violoncelo"
    ensures NormalizeInstrumentName(s) == "VIOLONCELLO"
  {
    VioloncelloKey(s);
    VioloncelloEntry();
    VioloncelloValue("VIOLONCELLO");
    SynonymExample(s, 0, "VIOLONCELLO");
  }

  lemma FlautaKey(a: string, b: string)
    requires a == "flauta" && b == " transversal"
    ensures ToUpper(a + b) == "FLAUTA" + " TRANSVERSAL"
  {
    ToUpperAppend(a, b);
    FlautaHead(a);
    FlautaTail(b);
  }

  lemma FlautaJoined(k: string)
    requires k == "FLAUTA TRANSVERSAL"
    ensures k == "FLAUTA" + " TRANSVERSAL"
  {
  }

  lemma FlautaHead(a: string)
    requires a == "flauta"
    ensures ToUpper(a) == "FLAUTA"
  {
  }

  lemma FlautaTail(b: string)
    requires b == " transversal"
    ensures ToUpper(b) == " TRANSVERSAL"
  {
  }

  lemma FlautaEntry()
    ensures Synonyms[8].0 == "FLAUTA TRANSVERSAL" && FirstMatch(Firsts(Synonyms), "FLAUTA TRANSVERSAL") == Some(8)
    ensures Synonyms[8].1 == "FLAUTA"
  {
    KeyPosition("FLAUTA TRANSVERSAL", 8);
  }

  lemma FlautaValue(v: string)
    requires v == "FLAUTA"
    ensures ToUpper(v) == v
  {
    CanonicalUpper(v);
  }

  /** "flauta transversal" is stored as "FLAUTA". */
  lemma FlautaSynonym(a: string, b: string)
    requires a == "flauta" && b == " transversal"
    ensures NormalizeInstrumentName(a + b) == "FLAUTA"
  {
    FlautaKey(a, b);
    FlautaJoined("FLAUTA TRANSVERSAL");
    FlautaEntry();
    FlautaValue("FLAUTA");
    SynonymExample(a + b, 8, "FLAUTA");
  }

  lemma EufonioKey(s: string)
    requires s == "eufonio"
    ensures ToUpper(s) == "EUFONIO"
  {
  }

  lemma EufonioEntry()
    ensures Synonyms[4].0 == "EUFONIO" && FirstMatch(Firsts(Synonyms), "EUFONIO") == Some(4)
    ensures Synonyms[4].1 == "EUPH\U{00D4}NIO"
  {
    KeyPosition("EUFONIO", 4);
  }

  lemma EufonioValue(v: string)
    requires v == "EUPH\U{00D4}NIO"
    ensures ToUpper(v) == v
  {
  }

  /** The stored spelling "EUPHÔNIO" is trimmed already. */
  lemma EuphonioTrim(t: string)
    requires t == "EUPH\U{00D4}NIO"
    ensures Trim(t) == t
  {
    TrimOfTrimmed(t);
  }

  /** The stored spelling "EUPHÔNIO" is upper-case already. */
  lemma EuphonioUpper(t: string)
    requires t == "EUPH\U{00D4}NIO"
    ensures ToUpper(t) == t
  {
  }

  /** Stripping its accent gives "EUPHONIO". */
  lemma EuphonioBases(t: string)
    requires t == "EUPH\U{00D4}NIO"
    ensures Bases(t) == "EUPHONIO"
  {
  }

  /** It holds no combining mark. */
  lemma EuphonioNoMarks(t: string)
    requires t == "EUPH\U{00D4}NIO"
    ensures forall i | 0 <= i < |t| :: !IsCombiningMark(t[i])
  {
  }

  lemma EuphonioCanonical(k: string)
    requires k == "EUPHONIO"
    ensures IsCanonicalAscii(k)
  {
  }

  /** "EUPHONIO" is no registration key of the table. */
  lemma EuphonioAbsent(k: string)
    requires k == "EUPHONIO"
    ensures k !in Firsts(Synonyms)
  {
  }

  /** A name whose key is no registration key is stored under that key. */
  lemma UnlistedName(t: string, key: string)
    requires NormalizeString(t) == key && key !in Firsts(Synonyms)
    ensures NormalizeInstrumentName(t) == key
  {
    InstrumentNameByKey(t, key);
    FirstMatchAbsent(Firsts(Synonyms), key);
  }

  lemma EuphonioName(t: string)
    requires t == "EUPH\U{00D4}NIO"
    ensures NormalizeInstrumentName(t) == "EUPHONIO"
  {
    EuphonioTrim(t);
    EuphonioUpper(t);
    EuphonioBases(t);
    EuphonioNoMarks(t);
    EuphonioCanonical("EUPHONIO");
    AccentedKey(t, t, "EUPHONIO");
    EuphonioAbsent("EUPHONIO");
    UnlistedName(t, "EUPHONIO");
  }

  /**
   * `normalizeInstrumentName` is not idempotent: "eufonio" is stored as "EUPHÔNIO",
   * and "EUPHÔNIO" itself is stored as "EUPHONIO".
   */
  lemma EufonioNotIdempotent(s: string)
    requires s == "eufonio"
    ensures NormalizeInstrumentName(s) == "EUPH\U{00D4}NIO"
    ensures NormalizeInstrumentName(NormalizeInstrumentName(s)) == "EUPHONIO"
  {
    EufonioKey(s);
    EufonioEntry();
    EufonioValue("EUPH\U{00D4}NIO");
    SynonymExample(s, 4, "EUPH\U{00D4}NIO");
    EuphonioName("EUPH\U{00D4}NIO");
  }
}
