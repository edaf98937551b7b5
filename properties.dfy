/**
 * Ontology metadata vocabularies: the predicates of basicPropertyValues
 * (with their printed form) and the allowed property values of the HPO,
 * each read through a fixed registry.
 */
module Properties {
  import opened Wrappers
  import opened Strings
  import opened TermIds

  datatype Predicate =
    | UNKNOWN
    | CREATED_BY | CREATION_DATE | HAS_OBO_NAMESPACE | HAS_ALTERNATIVE_ID
    | IS_CLASS_LEVEL | IS_ANONYMOUS | CONSIDER | DEFAULT_NAMESPACE
    | LOGICAL_DEFINITION_VIEW_RELATION | SAVED_BY | IS_METADATA_TAG | SHORT_HAND
    | HAS_OBO_FORMAT_VERSION | CLOSE_MATCH | EXACT_MATCH | BROAD_MATCH | NARROW_MATCH
    | RDF_SCHEMA_COMMENT | SEE_ALSO | RELATED | EXCLUDED_SUBCLASS_OF | PATHOGENESIS
    | DATE | OWL_DEPRECATED | EDITOR_NOTES | CREATOR | DESCRIPTION | LICENSE | RIGHTS
    | SUBJECT | TITLE | TERM_REPLACED_BY | NEVER_IN_TAXON | IN_TAXON | EXCLUDED_SYNONYM
    | SOURCE | HOMEPAGE

  /** The older parser's predicate_registry_. */
  const LegacyPredicateRegistry: map<string, Predicate> := map[
    "oboInOwl#created_by" := CREATED_BY,
    "oboInOwl#creation_date" := CREATION_DATE,
    "oboInOwl#hasOBONamespace" := HAS_OBO_NAMESPACE,
    "oboInOwl#hasAlternativeId" := HAS_ALTERNATIVE_ID,
    "oboInOwl#is_class_level" := IS_CLASS_LEVEL,
    "oboInOwl#is_anonymous" := IS_ANONYMOUS,
    "oboInOwl#consider" := CONSIDER,
    "oboInOwl#default-namespace" := DEFAULT_NAMESPACE,
    "oboInOwl#logical-definition-view-relation" := LOGICAL_DEFINITION_VIEW_RELATION,
    "oboInOwl#saved-by" := SAVED_BY,
    "oboInOwl#is_metadata_tag" := IS_METADATA_TAG,
    "oboInOwl#shorthand" := SHORT_HAND,
    "oboInOwl#hasOBOFormatVersion" := HAS_OBO_FORMAT_VERSION,
    "core#closeMatch" := CLOSE_MATCH,
    "core#exactMatch" := EXACT_MATCH,
    "core#broadMatch" := BROAD_MATCH,
    "core#narrowMatch" := NARROW_MATCH,
    "rdf-schema#comment" := RDF_SCHEMA_COMMENT,
    "rdf-schema#seeAlso" := SEE_ALSO,
    "mondo#related" := RELATED,
    "mondo#excluded_subClassOf" := EXCLUDED_SUBCLASS_OF,
    "mondo#pathogenesis" := PATHOGENESIS,
    "date" := DATE,
    "owl#deprecated" := OWL_DEPRECATED,
    "hsapdv#editor_notes" := EDITOR_NOTES,
    "creator" := CREATOR,
    "description" := DESCRIPTION,
    "license" := LICENSE,
    "rights" := RIGHTS,
    "subject" := SUBJECT,
    "title" := TITLE,
    "IAO_0100001" := TERM_REPLACED_BY,
    "RO_0002161" := NEVER_IN_TAXON,
    "mondo#excluded_synonym" := EXCLUDED_SYNONYM,
    "source" := SOURCE,
    "homepage" := HOMEPAGE
  ]

  /**
   * PredicateValue::predicate_registry_ of the library: the older registry's
   * entries together with RO_0002162 (in_taxon).
   */
  const PredicateRegistry: map<string, Predicate> :=
    LegacyPredicateRegistry["RO_0002162" := IN_TAXON]

  /** No registered name stands for UNKNOWN, in either registry. */
  lemma RegistriesAvoidUnknown(s: string)
    ensures s in PredicateRegistry ==> PredicateRegistry[s] != UNKNOWN
    ensures s in LegacyPredicateRegistry ==> LegacyPredicateRegistry[s] != UNKNOWN
  {
  }

  /** string_to_predicate: the registered predicate, UNKNOWN (never an exception) otherwise. */
  function StringToPredicate(s: string): (r: Predicate)
    ensures r == UNKNOWN <==> s !in PredicateRegistry
    ensures s in PredicateRegistry ==> r == PredicateRegistry[s]
  {
    RegistriesAvoidUnknown(s);
    if s in PredicateRegistry then PredicateRegistry[s] else UNKNOWN
  }

  /** The older string_to_predicate. */
  function LegacyStringToPredicate(s: string): (r: Predicate)
    ensures r == UNKNOWN <==> s !in LegacyPredicateRegistry
    ensures s in LegacyPredicateRegistry ==> r == LegacyPredicateRegistry[s]
  {
    RegistriesAvoidUnknown(s);
    if s in LegacyPredicateRegistry then LegacyPredicateRegistry[s] else UNKNOWN
  }

  /** The two generations agree on every name except RO_0002162, which only the library knows. */
  lemma LegacyRegistryDiffersOnlyInTaxon(s: string)
    ensures s != "RO_0002162" ==> LegacyStringToPredicate(s) == StringToPredicate(s)
    ensures StringToPredicate("RO_0002162") == IN_TAXON
    ensures LegacyStringToPredicate("RO_0002162") == UNKNOWN
    ensures StringToPredicate("oboInOwl#hasAlternativeId") == HAS_ALTERNATIVE_ID
  {
    if s != "RO_0002162" {
      LegacyAgreesElsewhere(s);
    }
    TaxonOnlyInLibrary();
    AlternativeIdRegistered();
  }

  /** RO_0002162 is registered in the library only. */
  lemma TaxonOnlyInLibrary()
    ensures "RO_0002162" !in LegacyPredicateRegistry
    ensures "RO_0002162" in PredicateRegistry && PredicateRegistry["RO_0002162"] == IN_TAXON
  {
    assert "RO_0002162" != "RO_0002161" by { assert "RO_0002162"[9] != "RO_0002161"[9]; }
  }

  lemma AlternativeIdRegistered()
    ensures "oboInOwl#hasAlternativeId" in PredicateRegistry
    ensures PredicateRegistry["oboInOwl#hasAlternativeId"] == HAS_ALTERNATIVE_ID
  {
  }

  /** Every name but RO_0002162 is read alike by the two generations. */
  lemma LegacyAgreesElsewhere(s: string)
    requires s != "RO_0002162"
    ensures LegacyStringToPredicate(s) == StringToPredicate(s)
  {
  }

  /** A predicate with its text value (PredicateValue / the older PropertyValue). */
  datatype PredicateValue = PredicateValue(pred: Predicate, value: string)

  /** is_alternate_id */
  predicate IsAlternateId(pv: PredicateValue) {
    pv.pred == HAS_ALTERNATIVE_ID
  }

  /** The prefix operator<< writes before the value, and the fallback for every other predicate. */
  function PredicatePrefix(p: Predicate): (r: string)
  {
    match p
    case CREATED_BY => "created_by: "
    case CREATION_DATE => "creation_date: "
    case HAS_OBO_NAMESPACE => "has_obo_namespace: "
    case DATE => "date: "
    case CREATOR => "creator: "
    case DESCRIPTION => "description: "
    case LICENSE => "license: "
    case RIGHTS => "rights: "
    case SUBJECT => "subject: "
    case TITLE => "title: "
    case DEFAULT_NAMESPACE => "default-namespace: "
    case LOGICAL_DEFINITION_VIEW_RELATION => "logical-definition-view-relation: "
    case SAVED_BY => "saved-by: "
    case SOURCE => "source: "
    case _ => "[WARNING] other Predicate value(todo, property.cc): \n"
  }

  /** operator<<(PredicateValue): the prefix of its predicate followed by the value. */
  function PredicateValueText(pv: PredicateValue): (r: string)
    ensures |r| > |pv.value| && r[|r| - |pv.value|..] == pv.value
    ensures StartsWith(r, PredicatePrefix(pv.pred))
  {
    var r := PredicatePrefix(pv.pred) + pv.value;
    assert r[..|PredicatePrefix(pv.pred)|] == PredicatePrefix(pv.pred);
    r
  }

  /** Distinct printed predicates never share a prefix, so the text tells the predicate. */
  lemma PrefixesIdentifyPredicates(p: Predicate, q: Predicate)
    requires PredicatePrefix(p) == PredicatePrefix(q)
    requires PredicatePrefix(p) != "[WARNING] other Predicate value(todo, property.cc): \n"
    ensures p == q
  {
  }

  // ------------------------------------------------- allowed property values

  datatype AllowedPropertyValue =
    | UK_SPELLING | ABBREVIATION | PLURAL_FORM | LAYPERSON_TERM
    | CONSEQUENCE_OF_A_DISORDER_IN_ANOTHER_ORGAN_SYSTEM | DISPLAY_LABEL | HPO_SLIM
    | UNKNOWN_PROPERTY | OBSOLETE_SYNONYM | DUBIOUS | MAY_BE_MERGED_INTO
    | NEVER_IN_TAXON_PROPERTY | IN_TAXON_PROPERTY

  /** Property::property_registry_: text labels and ids, in pairs naming the same value. */
  const PropertyRegistry: map<string, AllowedPropertyValue> := map[
    "UK spelling" := UK_SPELLING,
    "HP_0045076" := UK_SPELLING,
    "abbreviation" := ABBREVIATION,
    "HP_0045077" := ABBREVIATION,
    "plural form" := PLURAL_FORM,
    "HP_0045078" := PLURAL_FORM,
    "layperson term" := LAYPERSON_TERM,
    "hp.owl#layperson" := LAYPERSON_TERM,
    "Consequence of a disorder in another organ system." := CONSEQUENCE_OF_A_DISORDER_IN_ANOTHER_ORGAN_SYSTEM,
    "hp#secondary_consequence" := CONSEQUENCE_OF_A_DISORDER_IN_ANOTHER_ORGAN_SYSTEM,
    "display label" := DISPLAY_LABEL,
    "HP_0031940" := DISPLAY_LABEL,
    "hp#hposlim_core" := HPO_SLIM,
    "unknown" := UNKNOWN_PROPERTY,
    "HP_0031859" := OBSOLETE_SYNONYM,
    "mondo#DUBIOUS" := DUBIOUS,
    "mondo#may_be_merged_into" := MAY_BE_MERGED_INTO,
    "RO_0002161" := NEVER_IN_TAXON_PROPERTY,
    "RO_0002162" := IN_TAXON_PROPERTY
  ]

  /** Property::apv_to_label_ */
  const ApvLabels: map<AllowedPropertyValue, string> := map[
    UK_SPELLING := "UK spelling",
    ABBREVIATION := "abbreviation",
    PLURAL_FORM := "plural form",
    LAYPERSON_TERM := "layperson term",
    CONSEQUENCE_OF_A_DISORDER_IN_ANOTHER_ORGAN_SYSTEM := "secondary consequence",
    DISPLAY_LABEL := "display label",
    HPO_SLIM := "hpo slim",
    OBSOLETE_SYNONYM := "obsolete synonym",
    DUBIOUS := "dubious",
    MAY_BE_MERGED_INTO := "may_be_merged_into",
    UNKNOWN_PROPERTY := "unknown",
    IN_TAXON_PROPERTY := "IN_TAXON",
    NEVER_IN_TAXON_PROPERTY := "NEVER_IN_TAXON"
  ]

  /** Every allowed value has a label, and no two share one. */
  lemma ApvLabelsTotalAndInjective(a: AllowedPropertyValue, b: AllowedPropertyValue)
    ensures a in ApvLabels
    ensures a != b ==> ApvLabels[a] != ApvLabels[b]
  {
  }

  /** A Property of the library: an allowed value and its label. */
  datatype Property = Property(apv: AllowedPropertyValue, name: string)

  /** Property(apv): the label comes from apv_to_label_ (left empty were it missing). */
  function PropertyOf(apv: AllowedPropertyValue): (r: Property)
    ensures r.apv == apv
    ensures apv in ApvLabels && ApvLabels[apv] == r.name
  {
    ApvLabelsTotalAndInjective(apv, apv);
    if apv in ApvLabels then Property(apv, ApvLabels[apv]) else Property(apv, "")
  }

  /** The label alone determines the property. */
  lemma PropertyOfInjective(a: AllowedPropertyValue, b: AllowedPropertyValue)
    requires PropertyOf(a).name == PropertyOf(b).name
    ensures a == b
  {
    ApvLabelsTotalAndInjective(a, b);
  }

  /** Property::id_to_property: the text after the last '/' looked up in the registry. */
  function IdToProperty(s: string): (r: Result<AllowedPropertyValue>)
    ensures r.Ok? <==> AfterLast(s, '/') in PropertyRegistry
    ensures r.Ok? ==> r.value == PropertyRegistry[AfterLast(s, '/')]
    ensures r.Err? ==> r.error == PhenopacketException("[WARNING] Unrecognized property: " + s)
  {
    var prp := AfterLast(s, '/');
    if prp in PropertyRegistry then Ok(PropertyRegistry[prp])
    else Err(PhenopacketException("[WARNING] Unrecognized property: " + s))
  }

  /** A URL names the property of its last segment, whatever its base. */
  lemma IdToPropertyOfUrl(base: string, key: string)
    requires '/' !in key
    ensures IdToProperty(key).Ok? ==> IdToProperty(base + "/" + key) == IdToProperty(key)
    ensures IdToProperty(key).Err? ==> IdToProperty(base + "/" + key).Err?
  {
    var s := base + "/" + key;
    assert s[|base|] == '/' && s[|base| + 1..] == key;
    FindLastCharAt(s, '/', |base|);
  }

  /** key is registered for v. */
  predicate Registered(key: string, v: AllowedPropertyValue) {
    key in PropertyRegistry && PropertyRegistry[key] == v
  }

  /** A registered key without '/' is read as the value it is registered for. */
  lemma IdToPropertyOfKey(key: string, v: AllowedPropertyValue)
    requires '/' !in key && Registered(key, v)
    ensures IdToProperty(key) == Ok(v)
  {
  }

  /** The label and the id of each pair are registered for the same allowed value. */
  lemma RegistryPairsAgree()
    ensures Registered("UK spelling", UK_SPELLING) && Registered("HP_0045076", UK_SPELLING)
    ensures Registered("abbreviation", ABBREVIATION) && Registered("HP_0045077", ABBREVIATION)
    ensures Registered("plural form", PLURAL_FORM) && Registered("HP_0045078", PLURAL_FORM)
    ensures Registered("display label", DISPLAY_LABEL) && Registered("HP_0031940", DISPLAY_LABEL)
  {
  }

  // ------------------------------------------- the older Property record

  /** The older Property: an id, a label and its property values. */
  datatype LegacyProperty = LegacyProperty(id: TermId, name: string, values: seq<PredicateValue>)

  /** operator<<(Property) of the older parser: "label[id] " then each value and "; ". */
  function LegacyPropertyText(p: LegacyProperty): (r: string)
    ensures StartsWith(r, p.name + "[" + p.id.value + "] ")
    ensures r[|p.name + "[" + p.id.value + "] "|..] == ValuesText(p.values)
  {
    var head := p.name + "[" + p.id.value + "] ";
    var r := head + ValuesText(p.values);
    assert r[..|head|] == head && r[|head|..] == ValuesText(p.values);
    r
  }

  /** Each value's text followed by "; ", in order. */
  function ValuesText(vs: seq<PredicateValue>): (r: string)
    ensures |r| >= 3 * |vs|
  {
    if |vs| == 0 then [] else ValuesText(vs[..|vs| - 1]) + PredicateValueText(vs[|vs| - 1]) + "; "
  }

  /** Printing one more value appends exactly its text and separator. */
  lemma ValuesTextAppend(vs: seq<PredicateValue>, v: PredicateValue)
    ensures ValuesText(vs + [v]) == ValuesText(vs) + PredicateValueText(v) + "; "
  {
    assert (vs + [v])[..|vs|] == vs;
  }
}
