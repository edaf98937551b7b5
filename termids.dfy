/**
 * Ontology term identifiers ("HP:0000118"): a value and the position of
 * the separator between prefix and local id. Two generations of the
 * parser exist; FromString/FromUrl follow the library, the Legacy
 * functions the older parser it replaced.
 */
module TermIds {
  import opened Wrappers
  import opened Strings

  datatype TermId = TermId(value: string, sep: nat)

  /** The separator is a ':' and the first one in the value. */
  predicate WellFormed(t: TermId) {
    t.sep < |t.value| && t.value[t.sep] == ':' && ':' !in t.value[..t.sep]
  }

  /** A CURIE produced from a string: well formed and free of '/'. */
  predicate Curie(t: TermId) {
    WellFormed(t) && '/' !in t.value
  }

  // ------------------------------------------------------------ accessors

  /** get_value */
  function GetValue(t: TermId): (r: string)
    ensures r == t.value
  {
    t.value
  }

  /** get_prefix: the text before the separator (substr clamps a long count). */
  function GetPrefix(t: TermId): (r: string)
    ensures t.sep <= |t.value| ==> r == t.value[..t.sep]
    ensures t.sep > |t.value| ==> r == t.value
  {
    if t.sep <= |t.value| then t.value[..t.sep] else t.value
  }

  /** get_id: the text after the separator; substr(sep+1) needs sep+1 <= size. */
  function GetId(t: TermId): (r: string)
    requires t.sep < |t.value|
    ensures |r| == |t.value| - t.sep - 1
    ensures r == t.value[|t.value| - |r|..]
  {
    t.value[t.sep + 1..]
  }

  /** Prefix, ':' and local id put together give back the value. */
  lemma PrefixColonId(t: TermId)
    requires t.sep < |t.value| && t.value[t.sep] == ':'
    ensures GetPrefix(t) + ":" + GetId(t) == GetValue(t)
  {
    assert t.value == t.value[..t.sep] + [t.value[t.sep]] + t.value[t.sep + 1..];
  }

  // ------------------------------------------------------------ comparison

  /** operator== and operator!= look at the value alone. */
  predicate Equal(a: TermId, b: TermId) { a.value == b.value }

  predicate NotEqual(a: TermId, b: TermId) { a.value != b.value }

  /** operator<: std::string order of the values. */
  predicate Less(a: TermId, b: TermId) { LexLess(a.value, b.value) }

  /** `<` is a strict order whose incomparable pairs are exactly the equal ones. */
  lemma LessIsStrictTotalOrder(a: TermId, b: TermId, c: TermId)
    ensures !Less(a, a)
    ensures Less(a, b) ==> !Less(b, a)
    ensures Less(a, b) && Less(b, c) ==> Less(a, c)
    ensures !Less(a, b) && !Less(b, a) <==> Equal(a, b)
    ensures NotEqual(a, b) <==> !Equal(a, b)
  {
    LexLessIrreflexive(a.value);
    LexLessTotal(a.value, b.value);
    if Less(a, b) { LexLessAsymmetric(a.value, b.value); }
    if Less(a, b) && Less(b, c) { LexLessTransitive(a.value, b.value, c.value); }
  }

  // ------------------------------------------------------------- parsing

  /** The text of s after its last '/'. */
  function Suffix(s: string): (cp: string)
    ensures '/' !in cp
  {
    AfterLast(s, '/')
  }

  /** TermId::from_string of the library. */
  function FromString(s: string): (r: Result<TermId>)
    ensures r.Ok? ==> Curie(r.value)
    ensures r.Err? <==>
      ':' !in Suffix(s) && !Contains(s, "hgnc") && !Contains(s, "ICD10")
      && '_' !in Suffix(s) && !Contains(s, "orcid.org/")
    ensures r.Err? ==> r.error == PhenopacketException(
      "Could not create TermId from string: Malformed ontology term id: " + s)
  {
    var cp := Suffix(s);
    if ':' in cp then Ok(TermId(cp, FindChar(cp, ':').value))
    else FromStringNoColon(s, cp)
  }

  /** from_string once the last segment cp is known to hold no ':'. */
  function FromStringNoColon(s: string, cp: string): (r: Result<TermId>)
    requires ':' !in cp && '/' !in cp
    ensures r.Ok? ==> Curie(r.value)
    ensures Contains(s, "hgnc") ==> r == Ok(TermId("HGNC:" + cp, 4))
    ensures !Contains(s, "hgnc") && Contains(s, "ICD10") ==> r == Ok(TermId("ICD10:" + cp, 5))
    ensures !Contains(s, "hgnc") && !Contains(s, "ICD10") && '_' in cp ==>
      var i := FindChar(cp, '_').value; r == Ok(TermId(cp[..i] + ":" + cp[i + 1..], i))
    ensures !Contains(s, "hgnc") && !Contains(s, "ICD10") && '_' !in cp && Contains(s, "orcid.org/") ==>
      r == Ok(TermId("ORCID:" + cp, 5))
    ensures r.Err? <==>
      !Contains(s, "hgnc") && !Contains(s, "ICD10") && '_' !in cp && !Contains(s, "orcid.org/")
    ensures r.Err? ==> r.error == PhenopacketException(
      "Could not create TermId from string: Malformed ontology term id: " + s)
  {
    if Contains(s, "hgnc") then
      assert "HGNC" + ":" + cp == "HGNC:" + cp;
      Ok(Prefixed("HGNC", cp))
    else if Contains(s, "ICD10") then
      assert "ICD10" + ":" + cp == "ICD10:" + cp;
      Ok(Prefixed("ICD10", cp))
    else if '_' in cp then Ok(UnderscoreToColon(cp, FindChar(cp, '_').value))
    else if Contains(s, "orcid.org/") then
      assert "ORCID" + ":" + cp == "ORCID:" + cp;
      Ok(Prefixed("ORCID", cp))
    else Err(PhenopacketException(
      "Could not create TermId from string: Malformed ontology term id: " + s))
  }

  /** `cp[i] = ':'` on a text without ':' or '/': the new ':' is the separator. */
  function UnderscoreToColon(cp: string, i: nat): (t: TermId)
    requires i < |cp| && ':' !in cp && '/' !in cp
    ensures Curie(t) && t.sep == i
    ensures t.value == cp[..i] + ":" + cp[i + 1..]
  {
    var v := ReplaceAt(cp, i, ':');
    assert v[..i] == cp[..i];
    assert forall c :: c in v ==> c in cp || c == ':';
    TermId(v, i)
  }

  /** The id prefix + ":" + local with the separator after the prefix. */
  function Prefixed(prefix: string, local: string): (t: TermId)
    requires ':' !in prefix && '/' !in prefix && ':' !in local && '/' !in local
    ensures Curie(t) && GetPrefix(t) == prefix && GetId(t) == local
    ensures t == TermId(prefix + ":" + local, |prefix|)
  {
    var t := TermId(prefix + ":" + local, |prefix|);
    assert t.value[..|prefix|] == prefix;
    assert t.value[|prefix| + 1..] == local;
    t
  }

  /** A CURIE goes through from_string unchanged. */
  lemma {:induction false} FromStringOfCurie(s: string, i: nat)
    requires '/' !in s && i < |s| && s[i] == ':' && ':' !in s[..i]
    ensures FromString(s) == Ok(TermId(s, i))
  {
    assert Suffix(s) == s;
    FindCharAt(s, ':', i);
  }

  /** Parsing is idempotent: the value of a parsed id parses to the same id. */
  lemma FromStringIdempotent(s: string)
    requires FromString(s).Ok?
    ensures FromString(FromString(s).value.value) == FromString(s)
  {
    var t := FromString(s).value;
    FromStringOfCurie(t.value, t.sep);
  }

  /** An underscore id such as "HP_0000118" (as in an OBO PURL) becomes "HP:0000118". */
  lemma FromStringUnderscore(s: string, i: nat)
    requires '/' !in s && ':' !in s && !Contains(s, "hgnc") && !Contains(s, "ICD10")
    requires i < |s| && s[i] == '_' && '_' !in s[..i]
    ensures FromString(s) == Ok(TermId(s[..i] + ":" + s[i + 1..], i))
  {
    assert Suffix(s) == s;
    FindCharAt(s, '_', i);
  }

  /** A last segment holding ':' is the id, whatever precedes its last '/'. */
  lemma FromStringColonSegment(s: string)
    requires ':' in Suffix(s)
    ensures FromString(s).Ok? && GetValue(FromString(s).value) == Suffix(s)
  {
  }

  /** Without ':' in the last segment, a text mentioning "hgnc" is HGNC:segment. */
  lemma FromStringHgnc(s: string)
    requires ':' !in Suffix(s) && Contains(s, "hgnc")
    ensures FromString(s) == Ok(TermId("HGNC:" + Suffix(s), 4))
    ensures GetPrefix(FromString(s).value) == "HGNC" && GetId(FromString(s).value) == Suffix(s)
  {
    assert ("HGNC:" + Suffix(s))[..4] == "HGNC";
  }

  /** Failing that, a text mentioning "ICD10" is ICD10:segment. */
  lemma FromStringIcd10(s: string)
    requires ':' !in Suffix(s) && !Contains(s, "hgnc") && Contains(s, "ICD10")
    ensures FromString(s) == Ok(TermId("ICD10:" + Suffix(s), 5))
    ensures GetPrefix(FromString(s).value) == "ICD10" && GetId(FromString(s).value) == Suffix(s)
  {
    assert ("ICD10:" + Suffix(s))[..5] == "ICD10";
  }

  /** Failing that, the first '_' of the last segment becomes the separator. */
  lemma FromStringUnderscoreSegment(s: string, i: nat)
    requires ':' !in Suffix(s) && !Contains(s, "hgnc") && !Contains(s, "ICD10")
    requires i < |Suffix(s)| && Suffix(s)[i] == '_' && '_' !in Suffix(s)[..i]
    ensures FromString(s) == Ok(TermId(Suffix(s)[..i] + ":" + Suffix(s)[i + 1..], i))
  {
    FindCharAt(Suffix(s), '_', i);
  }

  /** Failing all of these, an ORCID URL is ORCID:segment. */
  lemma FromStringOrcid(s: string)
    requires ':' !in Suffix(s) && '_' !in Suffix(s)
    requires !Contains(s, "hgnc") && !Contains(s, "ICD10") && Contains(s, "orcid.org/")
    ensures FromString(s) == Ok(TermId("ORCID:" + Suffix(s), 5))
    ensures GetPrefix(FromString(s).value) == "ORCID" && GetId(FromString(s).value) == Suffix(s)
  {
    assert ("ORCID:" + Suffix(s))[..5] == "ORCID";
  }

  /** TermId::from_url of the library. */
  function FromUrl(s: string): (r: Result<TermId>)
    ensures r.Ok? ==> WellFormed(r.value)
    ensures Contains(s, "hgnc/") ==>
      var i := Find(s, "hgnc/").value;
      r == Ok(TermId("HGNC:" + s[i + 5..], 4)) && GetPrefix(r.value) == "HGNC" && GetId(r.value) == s[i + 5..]
    ensures !Contains(s, "hgnc/") && '/' !in s ==>
      r == Err(PhenopacketException("Could not create TermId from URL: Malformed TermId URL: " + s))
    ensures !Contains(s, "hgnc/") && '/' in s ==> r == FromString(Suffix(s))
  {
    match Find(s, "hgnc/")
    case Some(i) =>
      var local := s[i + 5..];
      var t := TermId("HGNC:" + local, 4);
      assert t.value[..4] == "HGNC";
      Ok(t)
    case None =>
      match FindLastChar(s, '/')
      case None => Err(PhenopacketException("Could not create TermId from URL: Malformed TermId URL: " + s))
      case Some(i) => FromString(s[i + 1..])
  }

  /**
   * The suffix handed on by from_url holds no '/', so its ORCID branch can
   * never fire: a URL without "hgnc/" parses exactly when its last segment
   * holds ':' or '_' or mentions "hgnc" or "ICD10".
   */
  lemma FromUrlHasNoOrcidCase(s: string)
    requires !Contains(s, "hgnc/") && '/' in s
    ensures FromUrl(s).Ok? <==>
      var st := Suffix(s);
      ':' in st || '_' in st || Contains(st, "hgnc") || Contains(st, "ICD10")
  {
    var st := Suffix(s);
    assert Suffix(st) == st;
    NotContainsForChar(st, "orcid.org/", 9);
  }

  // ------------------------------------------------- the older parser

  /** The characters of "orcid.org/": find_first_of matches any one of them. */
  const OrcidChars: set<char> := {'o', 'r', 'c', 'i', 'd', '.', 'g', '/'}

  /** TermId::from_string of the older parser, as written. */
  function LegacyFromString(s: string): (r: Result<TermId>)
    ensures r.Ok? ==> Curie(r.value)
    ensures r.Err? <==> ':' !in Suffix(s) && '_' !in Suffix(s)
                        && FindFirstOf(s, OrcidChars).None?
    ensures r.Err? ==> r.error == JsonParseException("Malformed ontology term id: " + s)
  {
    var cp := Suffix(s);
    if ':' in cp then Ok(TermId(cp, FindChar(cp, ':').value))
    else if '_' in cp then Ok(UnderscoreToColon(cp, FindChar(cp, '_').value))
    else if FindFirstOf(s, OrcidChars).Some? then Ok(Prefixed("ORCID", cp))
    else Err(JsonParseException("Malformed ontology term id: " + s))
  }

  /**
   * The older parser's ORCID test accepts any text holding one of the
   * letters of "orcid.org/": "bad" becomes ORCID:bad, where the library
   * parser reports a malformed id.
   */
  lemma LegacyOrcidMatchesAnyLetter()
    ensures LegacyFromString("bad") == Ok(TermId("ORCID:bad", 5))
    ensures FromString("bad").Err?
  {
    LegacyReadsBad();
    LibraryRejectsBad();
  }

  lemma LegacyReadsBad()
    ensures LegacyFromString("bad") == Ok(TermId("ORCID:bad", 5))
  {
    assert Suffix("bad") == "bad";
    assert FindFirstOf("bad", OrcidChars) == Some(2);
    LegacyOrcidFallback("bad");
    assert Prefixed("ORCID", "bad").value == "ORCID:bad";
  }

  lemma LibraryRejectsBad()
    ensures FromString("bad").Err?
  {
    assert Suffix("bad") == "bad";
    NotContainsForChar("bad", "orcid.org/", 0);
    NotContainsForChar("bad", "hgnc", 0);
    NotContainsForChar("bad", "ICD10", 0);
  }

  /** A plain word with a letter of "orcid.org/" becomes an ORCID id under the older parser. */
  lemma LegacyOrcidFallback(s: string)
    requires Suffix(s) == s && ':' !in s && '_' !in s
    requires FindFirstOf(s, OrcidChars).Some?
    ensures LegacyFromString(s) == Ok(Prefixed("ORCID", s))
  {
  }

  /** Where the library parser succeeds on a text without hgnc/ICD10, the older one agrees. */
  lemma LegacyAgreesOnCuries(s: string)
    requires !Contains(s, "hgnc") && !Contains(s, "ICD10")
    requires FromString(s).Ok?
    ensures LegacyFromString(s) == FromString(s)
  {
    var cp := Suffix(s);
    if ':' !in cp && '_' !in cp {
      var i := Find(s, "orcid.org/").value;
      OccursAtChar(s, "orcid.org/", i, 0);
      assert s[i] in OrcidChars;
      assert FindFirstOf(s, OrcidChars).Some?;
      assert FromString(s) == FromStringNoColon(s, cp) == Ok(Prefixed("ORCID", cp));
    }
  }

  /** TermId::from_url of the older parser: no HGNC case and a shorter message. */
  function LegacyFromUrl(s: string): (r: Result<TermId>)
    ensures '/' !in s ==> r == Err(JsonParseException("Malformed TermId URL"))
    ensures '/' in s ==> r == LegacyFromString(Suffix(s))
  {
    match FindLastChar(s, '/')
    case None => Err(JsonParseException("Malformed TermId URL"))
    case Some(i) => LegacyFromString(s[i + 1..])
  }
}
