/**
 * The structural validation of a phenopacket: every element checks its own
 * fields and reports, in a fixed order, an ERROR or a WARNING for each
 * problem; an element that holds other elements adds their reports to its
 * own. The elements are plain records here; the protobuf messages they are
 * converted from are not part of this model.
 */
module Phenotools {
  import opened Wrappers
  import opened Strings

  // ---------------------------------------------------------- validations

  datatype ValidationType = WARNING | ERROR

  datatype ValidationCause =
    | ONTOLOGY_ID_EMPTY
    | INVALID_ONTOLOGY_ID
    | ONTOLOGY_LABEL_EMPTY
    | AGE_ELEMENT_UNINITIALIZED
    | INDIVIDUAL_LACKS_ID
    | INDIVIDUAL_LACKS_AGE
    | UNKNOWN_SEX
    | EXTERNAL_REFERENCE_LACKS_ID
    | EVIDENCE_LACKS_CODE
    | PHENOTYPIC_FEATURE_LACKS_ONTOLOGY_TERM
    | PHENOTYPIC_FEATURE_LACKS_EVIDENCE
    | GENE_LACKS_ID
    | GENE_LACKS_SYMBOL
    | ALLELE_LACKS_ID
    | ALLELE_LACKS_HGVS
    | LACKS_GENOME_ASSEMBLY
    | LACKS_CHROMOSOME
    | LACKS_REF
    | LACKS_ALT
    | LACKS_ZYGOSITY
    | LACKS_ALLELE
    | DISEASE_LACKS_TERM
    | UNIDENTIFIED_HTS_FILETYPE
    | HTSFILE_LACKS_URI
    | LACKS_SAMPLE_MAP
    | LACKS_HTS_FILE
    | RESOURCE_LACKS_ID
    | RESOURCE_LACKS_NAME
    | RESOURCE_LACKS_NAMESPACE_PREFIX
    | RESOURCE_LACKS_URL
    | RESOURCE_LACKS_VERSION
    | RESOURCE_LACKS_IRI_PREFIX
    | METADATA_LACKS_CREATED_TIMESTAMP
    | METADATA_LACKS_CREATED_BY
    | METADATA_LACKS_RESOURCES
    | METADATA_DOES_NOT_CONTAIN_ONTOLOGY
    | METADATA_HAS_SUPERFLUOUS_ONTOLOGY
    | PROCEDURE_LACKS_CODE
    | PHENOPACKET_LACKS_ID
    | PHENOPACKET_LACKS_SUBJECT
    | PHENOPACKET_LACKS_PHENOTYPIC_FEATURES
    | PHENOPACKET_LACKS_METADATA
    | BIOSAMPLE_LACKS_ID
    | BIOSAMPLE_LACKS_SAMPLED_TISSUE
    | BIOSAMPLE_LACKS_PHENOTYPES
    | BIOSAMPLE_LACKS_AGE
    | BIOSAMPLE_LACKS_HISTOLOGY
    | BIOSAMPLE_LACKS_TUMOR_PROGRESSION
    | BIOSAMPLE_LACKS_TUMOR_GRADE
    | BIOSAMPLE_LACKS_TUMOR_STAGE
    | BIOSAMPLE_LACKS_DIAGNOSTIC_MARKERS
    | ONTOLOGY_NOT_IN_METADATA
    | REDUNDANT_ANNOTATION
    | UNRECOGNIZED_TERMID

  /** One finding: its cause, its severity and an optional custom message ("" when absent). */
  datatype Validation = Validation(cause: ValidationCause, vtype: ValidationType, msg: string)

  predicate IsError(v: Validation) { v.vtype == ERROR }

  predicate IsWarning(v: Validation) { v.vtype == WARNING }

  /** createError(cause): an ERROR without a custom message, so its message is the cause's text. */
  function CreateError(cause: ValidationCause): Validation
  {
    Validation(cause, ERROR, "")
  }

  /** createError(cause, msg): an ERROR whose message is msg unless msg is empty. */
  function CreateErrorMsg(cause: ValidationCause, msg: string): Validation
  {
    Validation(cause, ERROR, msg)
  }

  /** createWarning(cause): a WARNING without a custom message. */
  function CreateWarning(cause: ValidationCause): Validation
  {
    Validation(cause, WARNING, "")
  }

  /** createWarning(cause, msg): a WARNING whose message is msg unless msg is empty. */
  function CreateWarningMsg(cause: ValidationCause, msg: string): Validation
  {
    Validation(cause, WARNING, msg)
  }

  /** message(): the custom message when there is one, else the fixed text of the cause. */
  function Message(v: Validation): (m: string)
    ensures v.msg != "" ==> m == v.msg
    ensures v.msg == "" ==> m == CauseText(v.cause)
  {
    if v.msg != "" then v.msg else CauseText(v.cause)
  }

  /**
   * The factories: createError gives an error and not a warning, createWarning
   * the opposite; get_cause() is the cause given; the one-argument forms leave
   * the message empty, so message() falls back to the cause's text.
   */
  lemma Factories(cause: ValidationCause, msg: string)
    ensures IsError(CreateError(cause)) && !IsWarning(CreateError(cause)) && CreateError(cause).cause == cause
    ensures IsError(CreateErrorMsg(cause, msg)) && !IsWarning(CreateErrorMsg(cause, msg)) && CreateErrorMsg(cause, msg).cause == cause
    ensures IsWarning(CreateWarning(cause)) && !IsError(CreateWarning(cause)) && CreateWarning(cause).cause == cause
    ensures IsWarning(CreateWarningMsg(cause, msg)) && !IsError(CreateWarningMsg(cause, msg)) && CreateWarningMsg(cause, msg).cause == cause
    ensures Message(CreateError(cause)) == CauseText(cause)
    ensures Message(CreateWarning(cause)) == CauseText(cause)
    ensures Message(CreateErrorMsg(cause, msg)) == if msg == "" then CauseText(cause) else msg
    ensures Message(CreateWarningMsg(cause, msg)) == if msg == "" then CauseText(cause) else msg
  {
    assert CreateError(cause).msg == "" && CreateWarning(cause).msg == "";
  }

  /** The fixed text of each cause. */
  function CauseText(c: ValidationCause): string
  {
    match c
    case ONTOLOGY_ID_EMPTY => "OntologyClass id not allowed to be empty"
    case INVALID_ONTOLOGY_ID => "OntologyClass id not a valid CURIE"
    case ONTOLOGY_LABEL_EMPTY => "OntologyClass label not allowed to be empty"
    case AGE_ELEMENT_UNINITIALIZED => "At least one of age and age_class must be present in Age element"
    case INDIVIDUAL_LACKS_ID => "id must be present in Individual element"
    case INDIVIDUAL_LACKS_AGE => "individual lacks age or age range information"
    case UNKNOWN_SEX => "individual sex not known/provided"
    case EXTERNAL_REFERENCE_LACKS_ID => "external reference must have an id"
    case EVIDENCE_LACKS_CODE => "Evidence element must contain an ontology code"
    case PHENOTYPIC_FEATURE_LACKS_ONTOLOGY_TERM =>
      "PhenotypicFeature element must contain an ontology term representing the phenotype"
    case PHENOTYPIC_FEATURE_LACKS_EVIDENCE => "PhenotypicFeature element must contain an evidence element"
    case GENE_LACKS_ID => "Gene must have id element"
    case GENE_LACKS_SYMBOL => "Gene must have symbol"
    case ALLELE_LACKS_ID => "Variant should have an id"
    case ALLELE_LACKS_HGVS => "HgvsAllele lack HGVS string"
    case LACKS_GENOME_ASSEMBLY => "Genome assembly missing"
    case LACKS_CHROMOSOME => "Chromosome missing"
    case LACKS_REF => "ref missing"
    case LACKS_ALT => "alt missing"
    case LACKS_ZYGOSITY => "zygosity missing"
    case LACKS_ALLELE => "allele missing"
    case DISEASE_LACKS_TERM => "disease lacks term"
    case UNIDENTIFIED_HTS_FILETYPE => "Unidentified HTS file type"
    case HTSFILE_LACKS_URI => "HtsFile lacks a URI"
    case LACKS_SAMPLE_MAP => "no sample map for HTS file"
    case LACKS_HTS_FILE => "no HTS file found"
    case RESOURCE_LACKS_ID => "resource id missing"
    case RESOURCE_LACKS_NAME => "resource name missing"
    case RESOURCE_LACKS_NAMESPACE_PREFIX => "resource namespace prefix missing"
    case RESOURCE_LACKS_URL => "resource URL missing"
    case RESOURCE_LACKS_VERSION => "resource version missing"
    case RESOURCE_LACKS_IRI_PREFIX => "resource IRI prefix missing"
    case METADATA_LACKS_CREATED_TIMESTAMP => "metadata timestamp missing"
    case METADATA_LACKS_CREATED_BY => "metadata created-by missing"
    case METADATA_LACKS_RESOURCES => "metadata lacks resources"
    case METADATA_DOES_NOT_CONTAIN_ONTOLOGY => "metadata lacks ontology used in phenopacket"
    case METADATA_HAS_SUPERFLUOUS_ONTOLOGY => "metadata refers to ontology not used in phenopacket"
    case PROCEDURE_LACKS_CODE => "procedrure code missing"
    case PHENOPACKET_LACKS_ID => "phenopacket id missing"
    case PHENOPACKET_LACKS_SUBJECT => "phenopacket subject missing"
    case PHENOPACKET_LACKS_PHENOTYPIC_FEATURES => "phenopacket has no phenotypic features"
    case PHENOPACKET_LACKS_METADATA => "phenopacket has no metadata"
    case BIOSAMPLE_LACKS_ID => "biosample lacks id"
    case BIOSAMPLE_LACKS_SAMPLED_TISSUE => "biosample lacks a sampled tissue"
    case BIOSAMPLE_LACKS_PHENOTYPES => "biosample lacks phenotypic features"
    case BIOSAMPLE_LACKS_AGE => "biosample lacks age"
    case BIOSAMPLE_LACKS_HISTOLOGY => "biosample lacks histological diagnosis"
    case BIOSAMPLE_LACKS_TUMOR_PROGRESSION => "biosample lacks tumor progression data"
    case BIOSAMPLE_LACKS_TUMOR_GRADE => "biosample lacks tumor grade"
    case BIOSAMPLE_LACKS_TUMOR_STAGE => "biosample lacks tumor stage"
    case BIOSAMPLE_LACKS_DIAGNOSTIC_MARKERS => "biosample lacks diagnostic markers"
    case ONTOLOGY_NOT_IN_METADATA => "ontology used but not in metadata"
    case REDUNDANT_ANNOTATION => "redundant terms used in annotation"
    case UNRECOGNIZED_TERMID => "unrecognized TermId"
  }

  /**
   * The validate(vector&) overloads: the element's findings are appended
   * at the end, and the findings already collected stay as they were.
   */
  method AppendValidations(collected: seq<Validation>, found: seq<Validation>) returns (r: seq<Validation>)
    ensures |r| == |collected| + |found|
    ensures r[..|collected|] == collected && r[|collected|..] == found
  {
    if |found| == 0 {
      return collected;
    }
    r := collected + found;
  }

  /** What an overload leaves is the two lists joined, the collected findings first. */
  lemma AppendedIsJoined(collected: seq<Validation>, found: seq<Validation>, r: seq<Validation>)
    requires |r| == |collected| + |found|
    requires r[..|collected|] == collected && r[|collected|..] == found
    ensures r == collected + found
  {
    assert r == r[..|collected|] + r[|collected|..];
  }

  /** 1 for a check that fails, 0 for one that passes. */
  function Flag(fails: bool): nat {
    if fails then 1 else 0
  }

  /**
   * The findings of a list of elements, as the loops that validate each
   * element in turn collect them: every element's findings, in list order.
   */
  function AllFindings<T>(xs: seq<T>, validate: T -> seq<Validation>): seq<Validation>
    decreases |xs|
  {
    if xs == [] then [] else AllFindings(xs[..|xs| - 1], validate) + validate(xs[|xs| - 1])
  }

  /** One more turn of such a loop appends the next element's findings. */
  lemma AllFindingsStep<T>(xs: seq<T>, validate: T -> seq<Validation>, i: nat)
    requires i < |xs|
    ensures AllFindings(xs[..i + 1], validate) == AllFindings(xs[..i], validate) + validate(xs[i])
  {
    assert xs[..i + 1][..i] == xs[..i];
  }

  /** A finding is in the list's findings exactly when some element reports it. */
  lemma {:induction false} AllFindingsMembers<T>(xs: seq<T>, validate: T -> seq<Validation>, v: Validation)
    ensures v in AllFindings(xs, validate) <==> exists k :: 0 <= k < |xs| && v in validate(xs[k])
    decreases |xs|
  {
    if xs != [] {
      var n := |xs| - 1;
      var init := xs[..n];
      AllFindingsMembers(init, validate, v);
      if v in validate(xs[n]) {
        assert 0 <= n < |xs| && v in validate(xs[n]);
      }
      if exists k :: 0 <= k < |xs| && v in validate(xs[k]) {
        var k :| 0 <= k < |xs| && v in validate(xs[k]);
        if k < n {
          assert init[k] == xs[k];
        }
      }
    }
  }

  /**
   * A finding is in the list's findings exactly when some element reports
   * it, and the list reports nothing exactly when no element does.
   */
  lemma AllFindingsMeaning<T>(xs: seq<T>, validate: T -> seq<Validation>)
    ensures forall v :: v in AllFindings(xs, validate) <==> exists k :: 0 <= k < |xs| && v in validate(xs[k])
    ensures AllFindings(xs, validate) == [] <==> forall k :: 0 <= k < |xs| ==> validate(xs[k]) == []
  {
    forall v
      ensures v in AllFindings(xs, validate) <==> exists k :: 0 <= k < |xs| && v in validate(xs[k])
    {
      AllFindingsMembers(xs, validate, v);
    }
    AllFindingsEmpty(xs, validate);
  }

  /** The list reports nothing exactly when no element does. */
  lemma AllFindingsEmpty<T>(xs: seq<T>, validate: T -> seq<Validation>)
    ensures AllFindings(xs, validate) == [] <==> forall k :: 0 <= k < |xs| ==> validate(xs[k]) == []
  {
    var r := AllFindings(xs, validate);
    if r != [] {
      AllFindingsMembers(xs, validate, r[0]);
    }
    forall k | 0 <= k < |xs| && validate(xs[k]) != []
      ensures r != []
    {
      AllFindingsMembers(xs, validate, validate(xs[k])[0]);
    }
  }

  /** Per-element cause and emptiness facts carry over to the findings of the whole list. */
  lemma AllFindingsPart<T>(xs: seq<T>, validate: T -> seq<Validation>, part: ValidationCause -> bool, ok: T -> bool)
    requires forall x :: (forall v :: v in validate(x) ==> part(v.cause)) && (validate(x) == [] <==> ok(x))
    ensures forall v :: v in AllFindings(xs, validate) ==> part(v.cause)
    ensures AllFindings(xs, validate) == [] <==> forall k :: 0 <= k < |xs| ==> ok(xs[k])
  {
    forall v | v in AllFindings(xs, validate) ensures part(v.cause) {
      AllFindingsMembers(xs, validate, v);
    }
    AllFindingsEmpty(xs, validate);
  }

  // -------------------------------------------------------- ontology class

  datatype OntologyClass = OntologyClass(id: string, lbl: string)

  /** The custom message of the INVALID_ONTOLOGY_ID warning. */
  function InvalidIdText(id: string): string {
    "OntologyClass id (" + id + ") not a valid CURIE"
  }

  predicate OntologyClassCause(c: ValidationCause) {
    c == ONTOLOGY_ID_EMPTY || c == INVALID_ONTOLOGY_ID || c == ONTOLOGY_LABEL_EMPTY
  }

  /** A term with a label and a CURIE-like id. */
  predicate WellFormedOntologyClass(oc: OntologyClass) {
    oc.id != "" && ':' in oc.id && oc.lbl != ""
  }

  /**
   * OntologyClass::validate: an ERROR for an empty id, a WARNING (naming
   * the id) for a non-empty id without ':', an ERROR for an empty label,
   * in that order.
   */
  function ValidateOntologyClass(oc: OntologyClass): (r: seq<Validation>)
    ensures CreateError(ONTOLOGY_ID_EMPTY) in r <==> oc.id == ""
    ensures CreateWarningMsg(INVALID_ONTOLOGY_ID, InvalidIdText(oc.id)) in r <==> oc.id != "" && ':' !in oc.id
    ensures CreateError(ONTOLOGY_LABEL_EMPTY) in r <==> oc.lbl == ""
    ensures oc.id == "" ==> r[0] == CreateError(ONTOLOGY_ID_EMPTY)
    ensures oc.lbl == "" ==> r[|r| - 1] == CreateError(ONTOLOGY_LABEL_EMPTY)
    ensures |r| <= 2
    ensures forall v :: v in r ==> OntologyClassCause(v.cause)
    ensures r == [] <==> WellFormedOntologyClass(oc)
  {
    (if oc.id == "" then [CreateError(ONTOLOGY_ID_EMPTY)]
     else if ':' !in oc.id then [CreateWarningMsg(INVALID_ONTOLOGY_ID, InvalidIdText(oc.id))]
     else [])
    + (if oc.lbl == "" then [CreateError(ONTOLOGY_LABEL_EMPTY)] else [])
  }

  /** get_prefix: the text before the first ':', or "N/A" when the id has none. */
  function OntologyClassPrefix(oc: OntologyClass): (r: string)
    ensures ':' !in oc.id ==> r == "N/A"
    ensures ':' in oc.id ==> ':' !in r && r + ":" <= oc.id
  {
    match FindChar(oc.id, ':')
    case None => "N/A"
    case Some(i) =>
      assert oc.id[..i + 1] == oc.id[..i] + ":";
      oc.id[..i]
  }

  /** A term that is present and well formed. */
  predicate WellFormedTerm(t: Option<OntologyClass>) {
    t.Some? && WellFormedOntologyClass(t.value)
  }

  predicate AllWellFormedTerms(ts: seq<OntologyClass>) {
    forall i :: 0 <= i < |ts| ==> WellFormedOntologyClass(ts[i])
  }

  /**
   * A term an element holds: the given finding when the term is missing,
   * else the term's own findings (the pattern every element that holds a
   * term and reports its absence follows).
   */
  function CheckTerm(t: Option<OntologyClass>, missing: Validation): (r: seq<Validation>)
    ensures t.None? ==> r == [missing]
    ensures t.Some? ==> forall v :: v in r ==> OntologyClassCause(v.cause)
    ensures r == [] <==> WellFormedTerm(t)
  {
    if t.None? then [missing] else ValidateOntologyClass(t.value)
  }

  /** The findings of a list of terms: each term's, in list order. */
  function TermListFindings(ts: seq<OntologyClass>): (r: seq<Validation>)
    ensures forall v :: v in r ==> OntologyClassCause(v.cause)
    ensures r == [] <==> AllWellFormedTerms(ts)
  {
    AllFindingsPart(ts, ValidateOntologyClass, OntologyClassCause, WellFormedOntologyClass);
    AllFindings(ts, ValidateOntologyClass)
  }

  /** The loop that hands each term of a list to its validate(vector&) overload. */
  method ValidateTermList(ts: seq<OntologyClass>) returns (r: seq<Validation>)
    ensures r == TermListFindings(ts)
  {
    r := [];
    for i := 0 to |ts|
      invariant r == AllFindings(ts[..i], ValidateOntologyClass)
    {
      var appended := AppendValidations(r, ValidateOntologyClass(ts[i]));
      AppendedIsJoined(r, ValidateOntologyClass(ts[i]), appended);
      AllFindingsStep(ts, ValidateOntologyClass, i);
      r := appended;
    }
    assert ts[..|ts|] == ts;
  }

  /**
   * A list of terms an element holds: the given finding when the list is
   * empty, else each term's findings appended in list order.
   */
  function CheckTerms(ts: seq<OntologyClass>, missing: Validation): (r: seq<Validation>)
    ensures ts == [] ==> r == [missing]
    ensures ts != [] ==> forall v :: v in r ==> OntologyClassCause(v.cause)
    ensures r == [] <==> ts != [] && AllWellFormedTerms(ts)
  {
    if ts == [] then [missing] else TermListFindings(ts)
  }

  // ------------------------------------------------------------ age

  datatype Age = Age(age: string)

  /** Age::validate: an ERROR when the ISO 8601 age text is empty. */
  function ValidateAge(a: Age): (r: seq<Validation>)
    ensures forall v :: v in r ==> v == CreateError(AGE_ELEMENT_UNINITIALIZED)
    ensures |r| == Flag(a.age == "")
  {
    if a.age == "" then [CreateError(AGE_ELEMENT_UNINITIALIZED)] else []
  }

  datatype AgeRange = AgeRange(start: Age, end: Age)

  /** AgeRange::validate: the start's findings, then the end's. */
  function ValidateAgeRange(ar: AgeRange): (r: seq<Validation>)
    ensures forall v :: v in r ==> v == CreateError(AGE_ELEMENT_UNINITIALIZED)
    ensures |r| == Flag(ar.start.age == "") + Flag(ar.end.age == "")
  {
    ValidateAge(ar.start) + ValidateAge(ar.end)
  }

  /** An age, or else an age range, with every age in it set. */
  predicate WellFormedAgeChoice(age: Option<Age>, range: Option<AgeRange>) {
    if age.Some? then age.value.age != ""
    else range.Some? && range.value.start.age != "" && range.value.end.age != ""
  }

  /**
   * The age of an individual or of a biosample: the age's findings when
   * there is one, else the age range's, else the given WARNING.
   */
  function CheckAge(age: Option<Age>, range: Option<AgeRange>, missing: ValidationCause): (r: seq<Validation>)
    ensures age.None? && range.None? ==> r == [CreateWarning(missing)]
    ensures age.Some? || range.Some? ==> forall v :: v in r ==> v == CreateError(AGE_ELEMENT_UNINITIALIZED)
    ensures CreateError(AGE_ELEMENT_UNINITIALIZED) in r <==>
      (age.Some? && age.value.age == "")
      || (age.None? && range.Some? && (range.value.start.age == "" || range.value.end.age == ""))
    ensures r == [] <==> WellFormedAgeChoice(age, range)
  {
    var r :=
      if age.Some? then ValidateAge(age.value)
      else if range.Some? then ValidateAgeRange(range.value)
      else [CreateWarning(missing)];
    assert r != [] ==> r[0] in r;
    r
  }

  // ------------------------------------------------------------ individual

  datatype Sex = UNKNOWN_SEX | FEMALE | MALE | OTHER_SEX

  datatype Individual = Individual(
    id: string,
    age: Option<Age>,
    ageRange: Option<AgeRange>,
    sex: Sex,
    taxonomy: Option<OntologyClass>)

  predicate IndividualCause(c: ValidationCause) {
    c == INDIVIDUAL_LACKS_ID || c == AGE_ELEMENT_UNINITIALIZED || c == INDIVIDUAL_LACKS_AGE || c == ValidationCause.UNKNOWN_SEX
  }

  predicate WellFormedIndividual(ind: Individual) {
    ind.id != "" && WellFormedAgeChoice(ind.age, ind.ageRange) && ind.sex != Sex.UNKNOWN_SEX
  }

  /**
   * Individual::validate: an ERROR for a missing id first; then the age's
   * findings, or else the age range's, or a WARNING when there is neither;
   * a WARNING for an unknown sex last. The taxonomy is optional and not checked.
   */
  function ValidateIndividual(ind: Individual): (r: seq<Validation>)
    ensures CreateError(INDIVIDUAL_LACKS_ID) in r <==> ind.id == ""
    ensures CreateWarning(INDIVIDUAL_LACKS_AGE) in r <==> ind.age.None? && ind.ageRange.None?
    ensures CreateWarning(ValidationCause.UNKNOWN_SEX) in r <==> ind.sex == Sex.UNKNOWN_SEX
    ensures CreateError(AGE_ELEMENT_UNINITIALIZED) in r <==>
      (ind.age.Some? && ind.age.value.age == "")
      || (ind.age.None? && ind.ageRange.Some? && (ind.ageRange.value.start.age == "" || ind.ageRange.value.end.age == ""))
    ensures ind.id == "" ==> r[0] == CreateError(INDIVIDUAL_LACKS_ID)
    ensures ind.sex == Sex.UNKNOWN_SEX ==> r[|r| - 1] == CreateWarning(ValidationCause.UNKNOWN_SEX)
    ensures forall v :: v in r ==> IndividualCause(v.cause)
    ensures r == [] <==> WellFormedIndividual(ind)
  {
    var id := if ind.id == "" then [CreateError(INDIVIDUAL_LACKS_ID)] else [];
    var age := CheckAge(ind.age, ind.ageRange, INDIVIDUAL_LACKS_AGE);
    var sex := if ind.sex == Sex.UNKNOWN_SEX then [CreateWarning(ValidationCause.UNKNOWN_SEX)] else [];
    IndividualParts(ind, id, age, sex);
    id + age + sex
  }

  /** The three parts of Individual::validate, in order, give its findings. */
  lemma IndividualParts(ind: Individual, id: seq<Validation>, age: seq<Validation>, sex: seq<Validation>)
    requires id == if ind.id == "" then [CreateError(INDIVIDUAL_LACKS_ID)] else []
    requires sex == if ind.sex == Sex.UNKNOWN_SEX then [CreateWarning(ValidationCause.UNKNOWN_SEX)] else []
    requires ind.age.None? && ind.ageRange.None? ==> age == [CreateWarning(INDIVIDUAL_LACKS_AGE)]
    requires ind.age.Some? || ind.ageRange.Some? ==> forall v :: v in age ==> v == CreateError(AGE_ELEMENT_UNINITIALIZED)
    requires CreateError(AGE_ELEMENT_UNINITIALIZED) in age <==>
      (ind.age.Some? && ind.age.value.age == "")
      || (ind.age.None? && ind.ageRange.Some? && (ind.ageRange.value.start.age == "" || ind.ageRange.value.end.age == ""))
    requires age == [] <==> WellFormedAgeChoice(ind.age, ind.ageRange)
    ensures CreateError(INDIVIDUAL_LACKS_ID) in id + age + sex <==> ind.id == ""
    ensures CreateWarning(INDIVIDUAL_LACKS_AGE) in id + age + sex <==> ind.age.None? && ind.ageRange.None?
    ensures CreateWarning(ValidationCause.UNKNOWN_SEX) in id + age + sex <==> ind.sex == Sex.UNKNOWN_SEX
    ensures CreateError(AGE_ELEMENT_UNINITIALIZED) in id + age + sex <==>
      (ind.age.Some? && ind.age.value.age == "")
      || (ind.age.None? && ind.ageRange.Some? && (ind.ageRange.value.start.age == "" || ind.ageRange.value.end.age == ""))
    ensures ind.id == "" ==> (id + age + sex)[0] == CreateError(INDIVIDUAL_LACKS_ID)
    ensures ind.sex == Sex.UNKNOWN_SEX ==> (id + age + sex)[|id + age + sex| - 1] == CreateWarning(ValidationCause.UNKNOWN_SEX)
    ensures forall v :: v in id + age + sex ==> IndividualCause(v.cause)
    ensures id + age + sex == [] <==> WellFormedIndividual(ind)
  {
  }

  // ------------------------------------------------- evidence and features

  datatype ExternalReference = ExternalReference(id: string, description: string)

  /** ExternalReference::validate: an ERROR when the id is empty; the description is optional. */
  function ValidateExternalReference(er: ExternalReference): (r: seq<Validation>)
    ensures forall v :: v in r ==> v == CreateError(EXTERNAL_REFERENCE_LACKS_ID)
    ensures |r| == Flag(er.id == "")
  {
    if er.id == "" then [CreateError(EXTERNAL_REFERENCE_LACKS_ID)] else []
  }

  datatype Evidence = Evidence(code: Option<OntologyClass>, reference: Option<ExternalReference>)

  predicate EvidenceCause(c: ValidationCause) {
    OntologyClassCause(c) || c == EVIDENCE_LACKS_CODE || c == EXTERNAL_REFERENCE_LACKS_ID
  }

  /** An external reference is optional; one that is present has an id. */
  predicate WellFormedReference(er: Option<ExternalReference>) {
    er.Some? ==> er.value.id != ""
  }

  predicate WellFormedEvidence(ev: Evidence) {
    WellFormedTerm(ev.code) && WellFormedReference(ev.reference)
  }

  predicate AllWellFormedEvidence(es: seq<Evidence>) {
    forall i :: 0 <= i < |es| ==> WellFormedEvidence(es[i])
  }

  /**
   * Evidence::validate: an ERROR when the evidence code is missing, else the
   * code's findings; then the external reference's findings when it is present.
   */
  function ValidateEvidence(ev: Evidence): (r: seq<Validation>)
    ensures CreateError(EVIDENCE_LACKS_CODE) in r <==> ev.code.None?
    ensures CreateError(EXTERNAL_REFERENCE_LACKS_ID) in r <==> ev.reference.Some? && ev.reference.value.id == ""
    ensures forall v :: v in r ==> EvidenceCause(v.cause)
    ensures r == [] <==> WellFormedEvidence(ev)
  {
    var code := CheckTerm(ev.code, CreateError(EVIDENCE_LACKS_CODE));
    var reference := if ev.reference.Some? then ValidateExternalReference(ev.reference.value) else [];
    assert reference != [] ==> reference[0] in reference;
    assert CreateError(EVIDENCE_LACKS_CODE) !in reference && CreateError(EXTERNAL_REFERENCE_LACKS_ID) !in code;
    code + reference
  }

  /** The description, the severity, the modifiers and the onset are not checked and not modelled. */
  datatype PhenotypicFeature = PhenotypicFeature(
    description: string,
    featureType: Option<OntologyClass>,
    negated: bool,
    evidence: seq<Evidence>)

  predicate FeatureCause(c: ValidationCause) {
    EvidenceCause(c) || c == PHENOTYPIC_FEATURE_LACKS_ONTOLOGY_TERM || c == PHENOTYPIC_FEATURE_LACKS_EVIDENCE
  }

  /** The causes only a feature (its type or its evidence list) reports. */
  predicate FeatureOwnCause(c: ValidationCause) {
    c == PHENOTYPIC_FEATURE_LACKS_ONTOLOGY_TERM || c == PHENOTYPIC_FEATURE_LACKS_EVIDENCE
    || c == EVIDENCE_LACKS_CODE || c == EXTERNAL_REFERENCE_LACKS_ID
  }

  predicate WellFormedFeature(pf: PhenotypicFeature) {
    WellFormedTerm(pf.featureType) && pf.evidence != [] && AllWellFormedEvidence(pf.evidence)
  }

  predicate AllWellFormedFeatures(fs: seq<PhenotypicFeature>) {
    forall i :: 0 <= i < |fs| ==> WellFormedFeature(fs[i])
  }

  /** What the feature check as written lets through silently: a well-formed type, and evidence that is well formed or absent. */
  predicate AsWrittenCleanFeature(pf: PhenotypicFeature) {
    WellFormedTerm(pf.featureType) && AllWellFormedEvidence(pf.evidence)
  }

  predicate AllAsWrittenCleanFeatures(fs: seq<PhenotypicFeature>) {
    forall i :: 0 <= i < |fs| ==> AsWrittenCleanFeature(fs[i])
  }

  /** The findings of a feature's evidence list: each evidence's, in list order. */
  function EvidenceListFindings(es: seq<Evidence>): (r: seq<Validation>)
    ensures CreateError(EVIDENCE_LACKS_CODE) in r <==> SomeEvidenceLacksCode(es)
    ensures forall v :: v in r ==> EvidenceCause(v.cause)
    ensures r == [] <==> AllWellFormedEvidence(es)
  {
    AllFindingsMembers(es, ValidateEvidence, CreateError(EVIDENCE_LACKS_CODE));
    AllFindingsPart(es, ValidateEvidence, EvidenceCause, WellFormedEvidence);
    AllFindings(es, ValidateEvidence)
  }

  /** The evidence loop of PhenotypicFeature::validate. */
  method ValidateEvidenceList(es: seq<Evidence>) returns (r: seq<Validation>)
    ensures r == EvidenceListFindings(es)
  {
    r := [];
    for i := 0 to |es|
      invariant r == AllFindings(es[..i], ValidateEvidence)
    {
      AllFindingsStep(es, ValidateEvidence, i);
      r := r + ValidateEvidence(es[i]);
    }
    assert es[..|es|] == es;
  }

  /**
   * PhenotypicFeature::validate with the missing-evidence WARNING added to
   * the list: the type's findings (an ERROR when it is missing), then a
   * WARNING when there is no evidence, else each evidence's findings.
   */
  function FeatureFindings(pf: PhenotypicFeature): (r: seq<Validation>)
    ensures CreateError(PHENOTYPIC_FEATURE_LACKS_ONTOLOGY_TERM) in r <==> pf.featureType.None?
    ensures CreateWarning(PHENOTYPIC_FEATURE_LACKS_EVIDENCE) in r <==> pf.evidence == []
    ensures CreateError(EVIDENCE_LACKS_CODE) in r <==> SomeEvidenceLacksCode(pf.evidence)
    ensures forall v :: v in r ==> FeatureCause(v.cause)
    ensures r == [] <==> WellFormedFeature(pf)
  {
    var term := CheckTerm(pf.featureType, CreateError(PHENOTYPIC_FEATURE_LACKS_ONTOLOGY_TERM));
    var evidence := if pf.evidence == [] then [CreateWarning(PHENOTYPIC_FEATURE_LACKS_EVIDENCE)] else EvidenceListFindings(pf.evidence);
    FeatureParts(pf, term, evidence, true);
    term + evidence
  }

  /**
   * PhenotypicFeature::validate as written: the type's findings (an ERROR
   * when it is missing), then each evidence's. The missing-evidence WARNING
   * is created but never added to the list, so a feature without evidence
   * reports nothing about it.
   */
  function AsWrittenFeatureFindings(pf: PhenotypicFeature): (r: seq<Validation>)
    ensures CreateError(PHENOTYPIC_FEATURE_LACKS_ONTOLOGY_TERM) in r <==> pf.featureType.None?
    ensures CreateWarning(PHENOTYPIC_FEATURE_LACKS_EVIDENCE) !in r
    ensures CreateError(EVIDENCE_LACKS_CODE) in r <==> SomeEvidenceLacksCode(pf.evidence)
    ensures forall v :: v in r ==> FeatureCause(v.cause) && v.cause != PHENOTYPIC_FEATURE_LACKS_EVIDENCE
    ensures r == [] <==> AsWrittenCleanFeature(pf)
  {
    var term := CheckTerm(pf.featureType, CreateError(PHENOTYPIC_FEATURE_LACKS_ONTOLOGY_TERM));
    var evidence := if pf.evidence == [] then [] else EvidenceListFindings(pf.evidence);
    FeatureParts(pf, term, evidence, false);
    term + evidence
  }

  /**
   * The type part and the evidence part of PhenotypicFeature::validate, in
   * order, give its findings; warns says whether a feature without
   * evidence gets the WARNING.
   */
  lemma FeatureParts(pf: PhenotypicFeature, term: seq<Validation>, evidence: seq<Validation>, warns: bool)
    requires pf.featureType.None? ==> term == [CreateError(PHENOTYPIC_FEATURE_LACKS_ONTOLOGY_TERM)]
    requires pf.featureType.Some? ==> forall v :: v in term ==> OntologyClassCause(v.cause)
    requires term == [] <==> WellFormedTerm(pf.featureType)
    requires pf.evidence == [] ==> evidence == if warns then [CreateWarning(PHENOTYPIC_FEATURE_LACKS_EVIDENCE)] else []
    requires pf.evidence != [] ==> forall v :: v in evidence ==> EvidenceCause(v.cause)
    requires pf.evidence != [] ==> (evidence == [] <==> AllWellFormedEvidence(pf.evidence))
    requires pf.evidence != [] ==>
      (CreateError(EVIDENCE_LACKS_CODE) in evidence <==> SomeEvidenceLacksCode(pf.evidence))
    ensures CreateError(PHENOTYPIC_FEATURE_LACKS_ONTOLOGY_TERM) in term + evidence <==> pf.featureType.None?
    ensures CreateWarning(PHENOTYPIC_FEATURE_LACKS_EVIDENCE) in term + evidence <==> warns && pf.evidence == []
    ensures CreateError(EVIDENCE_LACKS_CODE) in term + evidence <==> SomeEvidenceLacksCode(pf.evidence)
    ensures forall v :: v in term + evidence ==> FeatureCause(v.cause) && (v.cause == PHENOTYPIC_FEATURE_LACKS_EVIDENCE ==> warns)
    ensures term + evidence == [] <==> WellFormedTerm(pf.featureType) && (warns ==> pf.evidence != []) && AllWellFormedEvidence(pf.evidence)
  {
  }

  /** PhenotypicFeature::validate with the WARNING added: the type's check, then the evidence loop. */
  method ValidateFeature(pf: PhenotypicFeature) returns (r: seq<Validation>)
    ensures r == FeatureFindings(pf)
  {
    r := CheckTerm(pf.featureType, CreateError(PHENOTYPIC_FEATURE_LACKS_ONTOLOGY_TERM));
    if pf.evidence == [] {
      r := r + [CreateWarning(PHENOTYPIC_FEATURE_LACKS_EVIDENCE)];
    } else {
      var found := ValidateEvidenceList(pf.evidence);
      r := r + found;
    }
  }

  /** PhenotypicFeature::validate as written: the WARNING is built and dropped. */
  method AsWrittenValidateFeature(pf: PhenotypicFeature) returns (r: seq<Validation>)
    ensures r == AsWrittenFeatureFindings(pf)
  {
    r := CheckTerm(pf.featureType, CreateError(PHENOTYPIC_FEATURE_LACKS_ONTOLOGY_TERM));
    if pf.evidence == [] {
      var unused := CreateWarning(PHENOTYPIC_FEATURE_LACKS_EVIDENCE);
    } else {
      var found := ValidateEvidenceList(pf.evidence);
      r := r + found;
    }
  }

  /** A feature with a well-formed type and no evidence. */
  const FeatureWithoutEvidence := PhenotypicFeature("", Some(OntologyClass("HP:0001250", "Seizure")), false, [])

  /** The as-written feature check passes a feature with no evidence; the intended one warns. */
  lemma AsWrittenFeatureMissesEvidence()
    ensures AsWrittenFeatureFindings(FeatureWithoutEvidence) == []
    ensures FeatureFindings(FeatureWithoutEvidence) == [CreateWarning(PHENOTYPIC_FEATURE_LACKS_EVIDENCE)]
  {
    assert WellFormedOntologyClass(FeatureWithoutEvidence.featureType.value) by {
      assert FeatureWithoutEvidence.featureType.value.id[2] == ':';
    }
  }

  /** The findings of a list of features: each feature's, in list order. */
  function FeatureListFindings(fs: seq<PhenotypicFeature>): (r: seq<Validation>)
    ensures CreateError(PHENOTYPIC_FEATURE_LACKS_ONTOLOGY_TERM) in r <==> SomeFeatureLacksTerm(fs)
    ensures CreateWarning(PHENOTYPIC_FEATURE_LACKS_EVIDENCE) in r <==> SomeFeatureLacksEvidence(fs)
    ensures forall v :: v in r ==> FeatureCause(v.cause)
    ensures r == [] <==> AllWellFormedFeatures(fs)
  {
    FeatureListFlags(fs);
    AllFindingsPart(fs, FeatureFindings, FeatureCause, WellFormedFeature);
    AllFindings(fs, FeatureFindings)
  }

  /** A feature list reports a missing type, or missing evidence, exactly when some feature lacks it. */
  lemma FeatureListFlags(fs: seq<PhenotypicFeature>)
    ensures CreateError(PHENOTYPIC_FEATURE_LACKS_ONTOLOGY_TERM) in AllFindings(fs, FeatureFindings)
      <==> SomeFeatureLacksTerm(fs)
    ensures CreateWarning(PHENOTYPIC_FEATURE_LACKS_EVIDENCE) in AllFindings(fs, FeatureFindings)
      <==> SomeFeatureLacksEvidence(fs)
  {
    AllFindingsMembers(fs, FeatureFindings, CreateError(PHENOTYPIC_FEATURE_LACKS_ONTOLOGY_TERM));
    AllFindingsMembers(fs, FeatureFindings, CreateWarning(PHENOTYPIC_FEATURE_LACKS_EVIDENCE));
  }

  /** The same list with the feature check as written: no feature ever reports missing evidence. */
  function AsWrittenFeatureListFindings(fs: seq<PhenotypicFeature>): (r: seq<Validation>)
    ensures CreateError(PHENOTYPIC_FEATURE_LACKS_ONTOLOGY_TERM) in r <==> SomeFeatureLacksTerm(fs)
    ensures forall v :: v in r ==> AsWrittenFeatureCause(v.cause)
    ensures r == [] <==> AllAsWrittenCleanFeatures(fs)
  {
    AllFindingsMembers(fs, AsWrittenFeatureFindings, CreateError(PHENOTYPIC_FEATURE_LACKS_ONTOLOGY_TERM));
    AllFindingsPart(fs, AsWrittenFeatureFindings, AsWrittenFeatureCause, AsWrittenCleanFeature);
    AllFindings(fs, AsWrittenFeatureFindings)
  }

  /** The loop over a list of features, each one validated in turn. */
  method ValidateFeatureList(fs: seq<PhenotypicFeature>) returns (r: seq<Validation>)
    ensures r == FeatureListFindings(fs)
  {
    r := [];
    for i := 0 to |fs|
      invariant r == AllFindings(fs[..i], FeatureFindings)
    {
      var found := ValidateFeature(fs[i]);
      AllFindingsStep(fs, FeatureFindings, i);
      r := r + found;
    }
    assert fs[..|fs|] == fs;
  }

  /** The same loop with the feature check as written. */
  method AsWrittenValidateFeatureList(fs: seq<PhenotypicFeature>) returns (r: seq<Validation>)
    ensures r == AsWrittenFeatureListFindings(fs)
  {
    r := [];
    for i := 0 to |fs|
      invariant r == AllFindings(fs[..i], AsWrittenFeatureFindings)
    {
      var found := AsWrittenValidateFeature(fs[i]);
      AllFindingsStep(fs, AsWrittenFeatureFindings, i);
      r := r + found;
    }
    assert fs[..|fs|] == fs;
  }

  // ------------------------------------------------------ genes and alleles

  datatype Gene = Gene(id: string, symbol: string)

  predicate GeneCause(c: ValidationCause) {
    c == GENE_LACKS_ID || c == GENE_LACKS_SYMBOL
  }

  predicate WellFormedGene(g: Gene) {
    g.id != "" && g.symbol != ""
  }

  /** Gene::validate: an ERROR for a missing id, then an ERROR for a missing symbol. */
  function ValidateGene(g: Gene): (r: seq<Validation>)
    ensures |r| == Flag(g.id == "") + Flag(g.symbol == "")
    ensures g.id == "" ==> r[0] == CreateError(GENE_LACKS_ID)
    ensures g.symbol == "" ==> r[Flag(g.id == "")] == CreateError(GENE_LACKS_SYMBOL)
    ensures CreateError(GENE_LACKS_ID) in r <==> g.id == ""
    ensures CreateError(GENE_LACKS_SYMBOL) in r <==> g.symbol == ""
    ensures forall v :: v in r ==> IsError(v) && GeneCause(v.cause)
    ensures r == [] <==> WellFormedGene(g)
  {
    (if g.id == "" then [CreateError(GENE_LACKS_ID)] else [])
    + (if g.symbol == "" then [CreateError(GENE_LACKS_SYMBOL)] else [])
  }

  datatype HgvsAllele = HgvsAllele(id: string, hgvs: string)

  predicate WellFormedHgvsAllele(a: HgvsAllele) {
    a.id != "" && a.hgvs != ""
  }

  /** HgvsAllele::validate: a WARNING for a missing id, then an ERROR for a missing HGVS string. */
  function ValidateHgvsAllele(a: HgvsAllele): (r: seq<Validation>)
    ensures |r| == Flag(a.id == "") + Flag(a.hgvs == "")
    ensures a.id == "" ==> r[0] == CreateWarning(ALLELE_LACKS_ID)
    ensures a.hgvs == "" ==> r[Flag(a.id == "")] == CreateError(ALLELE_LACKS_HGVS)
    ensures CreateWarning(ALLELE_LACKS_ID) in r <==> a.id == ""
    ensures CreateError(ALLELE_LACKS_HGVS) in r <==> a.hgvs == ""
    ensures forall v :: v in r ==> v == CreateWarning(ALLELE_LACKS_ID) || v == CreateError(ALLELE_LACKS_HGVS)
    ensures r == [] <==> WellFormedHgvsAllele(a)
  {
    (if a.id == "" then [CreateWarning(ALLELE_LACKS_ID)] else [])
    + (if a.hgvs == "" then [CreateError(ALLELE_LACKS_HGVS)] else [])
  }

  /** The position and the info field are not checked. */
  datatype VcfAllele = VcfAllele(
    genomeAssembly: string,
    id: string,
    chr: string,
    pos: int,
    ref: string,
    alt: string,
    info: string)

  predicate AlleleCause(c: ValidationCause) {
    c == ALLELE_LACKS_ID || c == ALLELE_LACKS_HGVS || c == LACKS_GENOME_ASSEMBLY
    || c == LACKS_CHROMOSOME || c == LACKS_REF || c == LACKS_ALT
  }

  predicate WellFormedVcfAllele(a: VcfAllele) {
    a.id != "" && a.genomeAssembly != "" && a.chr != "" && a.ref != "" && a.alt != ""
  }

  /** The id and genome-assembly checks of VcfAllele::validate. */
  function ValidateVcfAlleleHeader(a: VcfAllele): (r: seq<Validation>)
    ensures |r| == Flag(a.id == "") + Flag(a.genomeAssembly == "")
    ensures a.id == "" ==> r[0] == CreateWarning(ALLELE_LACKS_ID)
    ensures a.genomeAssembly == "" ==> r[Flag(a.id == "")] == CreateError(LACKS_GENOME_ASSEMBLY)
    ensures forall v :: v in r ==> AlleleCause(v.cause)
    ensures r == [] <==> a.id != "" && a.genomeAssembly != ""
  {
    (if a.id == "" then [CreateWarning(ALLELE_LACKS_ID)] else [])
    + (if a.genomeAssembly == "" then [CreateError(LACKS_GENOME_ASSEMBLY)] else [])
  }

  /** The chromosome, reference and alternative checks of VcfAllele::validate. */
  function ValidateVcfAlleleCall(a: VcfAllele): (r: seq<Validation>)
    ensures |r| == Flag(a.chr == "") + Flag(a.ref == "") + Flag(a.alt == "")
    ensures a.chr == "" ==> r[0] == CreateError(LACKS_CHROMOSOME)
    ensures a.ref == "" ==> r[Flag(a.chr == "")] == CreateError(LACKS_REF)
    ensures a.alt == "" ==> r[Flag(a.chr == "") + Flag(a.ref == "")] == CreateError(LACKS_ALT)
    ensures forall v :: v in r ==> AlleleCause(v.cause)
    ensures r == [] <==> a.chr != "" && a.ref != "" && a.alt != ""
  {
    (if a.chr == "" then [CreateError(LACKS_CHROMOSOME)] else [])
    + (if a.ref == "" then [CreateError(LACKS_REF)] else [])
    + (if a.alt == "" then [CreateError(LACKS_ALT)] else [])
  }

  /**
   * VcfAllele::validate: a WARNING for a missing id; then ERRORs for a
   * missing genome assembly, chromosome, reference and alternative allele,
   * in that order.
   */
  function ValidateVcfAllele(a: VcfAllele): (r: seq<Validation>)
    ensures |r| == Flag(a.id == "") + Flag(a.genomeAssembly == "") + Flag(a.chr == "") + Flag(a.ref == "") + Flag(a.alt == "")
    ensures a.id == "" ==> r[0] == CreateWarning(ALLELE_LACKS_ID)
    ensures a.genomeAssembly == "" ==> r[Flag(a.id == "")] == CreateError(LACKS_GENOME_ASSEMBLY)
    ensures a.chr == "" ==> r[Flag(a.id == "") + Flag(a.genomeAssembly == "")] == CreateError(LACKS_CHROMOSOME)
    ensures a.ref == "" ==> r[Flag(a.id == "") + Flag(a.genomeAssembly == "") + Flag(a.chr == "")] == CreateError(LACKS_REF)
    ensures a.alt == "" ==> r[Flag(a.id == "") + Flag(a.genomeAssembly == "") + Flag(a.chr == "") + Flag(a.ref == "")] == CreateError(LACKS_ALT)
    ensures forall v :: v in r ==> AlleleCause(v.cause)
    ensures r == [] <==> WellFormedVcfAllele(a)
  {
    var header := ValidateVcfAlleleHeader(a);
    var call := ValidateVcfAlleleCall(a);
    VcfAlleleParts(a, header, call);
    header + call
  }

  /** The two parts of VcfAllele::validate, in order, give its findings. */
  lemma VcfAlleleParts(a: VcfAllele, header: seq<Validation>, call: seq<Validation>)
    requires |header| == Flag(a.id == "") + Flag(a.genomeAssembly == "")
    requires a.id == "" ==> header[0] == CreateWarning(ALLELE_LACKS_ID)
    requires a.genomeAssembly == "" ==> header[Flag(a.id == "")] == CreateError(LACKS_GENOME_ASSEMBLY)
    requires forall v :: v in header ==> AlleleCause(v.cause)
    requires header == [] <==> a.id != "" && a.genomeAssembly != ""
    requires |call| == Flag(a.chr == "") + Flag(a.ref == "") + Flag(a.alt == "")
    requires a.chr == "" ==> call[0] == CreateError(LACKS_CHROMOSOME)
    requires a.ref == "" ==> call[Flag(a.chr == "")] == CreateError(LACKS_REF)
    requires a.alt == "" ==> call[Flag(a.chr == "") + Flag(a.ref == "")] == CreateError(LACKS_ALT)
    requires forall v :: v in call ==> AlleleCause(v.cause)
    requires call == [] <==> a.chr != "" && a.ref != "" && a.alt != ""
    ensures |header + call| == Flag(a.id == "") + Flag(a.genomeAssembly == "") + Flag(a.chr == "") + Flag(a.ref == "") + Flag(a.alt == "")
    ensures a.id == "" ==> (header + call)[0] == CreateWarning(ALLELE_LACKS_ID)
    ensures a.genomeAssembly == "" ==> (header + call)[Flag(a.id == "")] == CreateError(LACKS_GENOME_ASSEMBLY)
    ensures a.chr == "" ==> (header + call)[Flag(a.id == "") + Flag(a.genomeAssembly == "")] == CreateError(LACKS_CHROMOSOME)
    ensures a.ref == "" ==> (header + call)[Flag(a.id == "") + Flag(a.genomeAssembly == "") + Flag(a.chr == "")] == CreateError(LACKS_REF)
    ensures a.alt == "" ==> (header + call)[Flag(a.id == "") + Flag(a.genomeAssembly == "") + Flag(a.chr == "") + Flag(a.ref == "")] == CreateError(LACKS_ALT)
    ensures forall v :: v in header + call ==> AlleleCause(v.cause)
    ensures header + call == [] <==> WellFormedVcfAllele(a)
  {
  }

  // ------------------------------------------------------------ variant

  /** The allele is an HGVS allele or a VCF allele; the other allele kinds are not modelled. */
  datatype Variant = Variant(hgvs: Option<HgvsAllele>, vcf: Option<VcfAllele>, zygosity: Option<OntologyClass>)

  predicate VariantCause(c: ValidationCause) {
    AlleleCause(c) || OntologyClassCause(c) || c == LACKS_ALLELE || c == LACKS_ZYGOSITY
  }

  /** The HGVS allele when there is one, else the VCF allele, is present and well formed. */
  predicate WellFormedAllele(vr: Variant) {
    if vr.hgvs.Some? then WellFormedHgvsAllele(vr.hgvs.value)
    else vr.vcf.Some? && WellFormedVcfAllele(vr.vcf.value)
  }

  predicate WellFormedVariant(vr: Variant) {
    WellFormedAllele(vr) && WellFormedTerm(vr.zygosity)
  }

  /** The allele part of Variant::validate: the HGVS allele's findings, else the VCF allele's, else an ERROR. */
  function ValidateAllele(vr: Variant): (r: seq<Validation>)
    ensures CreateError(LACKS_ALLELE) in r <==> vr.hgvs.None? && vr.vcf.None?
    ensures forall v :: v in r ==> AlleleCause(v.cause) || v == CreateError(LACKS_ALLELE)
    ensures r == [] <==> WellFormedAllele(vr)
  {
    if vr.hgvs.Some? then ValidateHgvsAllele(vr.hgvs.value)
    else if vr.vcf.Some? then ValidateVcfAllele(vr.vcf.value)
    else [CreateError(LACKS_ALLELE)]
  }

  /**
   * Variant::validate: the allele's findings (an ERROR when there is no
   * allele), then an ERROR for a missing zygosity or the zygosity's findings.
   */
  function ValidateVariant(vr: Variant): (r: seq<Validation>)
    ensures CreateError(LACKS_ALLELE) in r <==> vr.hgvs.None? && vr.vcf.None?
    ensures CreateError(LACKS_ZYGOSITY) in r <==> vr.zygosity.None?
    ensures forall v :: v in r ==> VariantCause(v.cause)
    ensures r == [] <==> WellFormedVariant(vr)
  {
    var allele := ValidateAllele(vr);
    var zygosity := CheckTerm(vr.zygosity, CreateError(LACKS_ZYGOSITY));
    VariantParts(vr, allele, zygosity);
    allele + zygosity
  }

  /** The allele part and the zygosity part of Variant::validate, in order, give its findings. */
  lemma VariantParts(vr: Variant, allele: seq<Validation>, zygosity: seq<Validation>)
    requires CreateError(LACKS_ALLELE) in allele <==> vr.hgvs.None? && vr.vcf.None?
    requires forall v :: v in allele ==> AlleleCause(v.cause) || v == CreateError(LACKS_ALLELE)
    requires allele == [] <==> WellFormedAllele(vr)
    requires vr.zygosity.None? ==> zygosity == [CreateError(LACKS_ZYGOSITY)]
    requires vr.zygosity.Some? ==> forall v :: v in zygosity ==> OntologyClassCause(v.cause)
    requires zygosity == [] <==> WellFormedTerm(vr.zygosity)
    ensures CreateError(LACKS_ALLELE) in allele + zygosity <==> vr.hgvs.None? && vr.vcf.None?
    ensures CreateError(LACKS_ZYGOSITY) in allele + zygosity <==> vr.zygosity.None?
    ensures forall v :: v in allele + zygosity ==> VariantCause(v.cause)
    ensures allele + zygosity == [] <==> WellFormedVariant(vr)
  {
  }

  // ------------------------------------------------------------ disease

  /** At most one of the three onsets is used: the age, else the age range, else the class. */
  datatype Disease = Disease(
    term: Option<OntologyClass>,
    ageOfOnset: Option<Age>,
    ageRangeOfOnset: Option<AgeRange>,
    classOfOnset: Option<OntologyClass>)

  predicate DiseaseCause(c: ValidationCause) {
    c == DISEASE_LACKS_TERM || c == AGE_ELEMENT_UNINITIALIZED || OntologyClassCause(c)
  }

  predicate WellFormedOnset(d: Disease) {
    if d.ageOfOnset.Some? then d.ageOfOnset.value.age != ""
    else if d.ageRangeOfOnset.Some? then d.ageRangeOfOnset.value.start.age != "" && d.ageRangeOfOnset.value.end.age != ""
    else d.classOfOnset.Some? ==> WellFormedOntologyClass(d.classOfOnset.value)
  }

  predicate WellFormedDisease(d: Disease) {
    d.term.Some? && WellFormedOnset(d)
  }

  /** The onset part of Disease::validate: the onset is optional; the one present is checked. */
  function ValidateOnset(d: Disease): (r: seq<Validation>)
    ensures forall v :: v in r ==> v.cause == AGE_ELEMENT_UNINITIALIZED || OntologyClassCause(v.cause)
    ensures d.ageOfOnset.Some? || d.ageRangeOfOnset.Some? ==> forall v :: v in r ==> v.cause == AGE_ELEMENT_UNINITIALIZED
    ensures r == [] <==> WellFormedOnset(d)
  {
    var r :=
      if d.ageOfOnset.Some? then ValidateAge(d.ageOfOnset.value)
      else if d.ageRangeOfOnset.Some? then ValidateAgeRange(d.ageRangeOfOnset.value)
      else if d.classOfOnset.Some? then ValidateOntologyClass(d.classOfOnset.value)
      else [];
    assert r != [] ==> r[0] in r;
    r
  }

  /**
   * Disease::validate: an ERROR when the term is missing (a present term is
   * not itself checked), then the onset's findings.
   */
  function ValidateDisease(d: Disease): (r: seq<Validation>)
    ensures CreateError(DISEASE_LACKS_TERM) in r <==> d.term.None?
    ensures forall v :: v in r ==> DiseaseCause(v.cause)
    ensures r == [] <==> WellFormedDisease(d)
  {
    (if d.term.None? then [CreateError(DISEASE_LACKS_TERM)] else []) + ValidateOnset(d)
  }

  // ------------------------------------------------------------ HTS files

  datatype HtsFormat = UNKNOWN | SAM | BAM | CRAM | VCF | BCF | GVCF

  datatype HtsFile = HtsFile(
    uri: string,
    description: string,
    format: HtsFormat,
    genomeAssembly: string,
    sampleMap: map<string, string>)

  predicate HtsFileCause(c: ValidationCause) {
    c == HTSFILE_LACKS_URI || c == UNIDENTIFIED_HTS_FILETYPE || c == LACKS_GENOME_ASSEMBLY || c == LACKS_SAMPLE_MAP
  }

  predicate WellFormedHtsFile(f: HtsFile) {
    f.uri != "" && f.format != UNKNOWN && f.genomeAssembly != "" && |f.sampleMap| > 0
  }

  /**
   * HtsFile::validate: ERRORs for a missing URI, an unknown format and a
   * missing genome assembly, then a WARNING for an empty sample map, in
   * that order.
   */
  function ValidateHtsFile(f: HtsFile): (r: seq<Validation>)
    ensures |r| == Flag(f.uri == "") + Flag(f.format == UNKNOWN) + Flag(f.genomeAssembly == "") + Flag(|f.sampleMap| == 0)
    ensures CreateError(HTSFILE_LACKS_URI) in r <==> f.uri == ""
    ensures CreateWarning(LACKS_SAMPLE_MAP) in r <==> |f.sampleMap| == 0
    ensures forall v :: v in r ==> HtsFileCause(v.cause)
    ensures r == [] <==> WellFormedHtsFile(f)
  {
    (if f.uri == "" then [CreateError(HTSFILE_LACKS_URI)] else [])
    + (if f.format == UNKNOWN then [CreateError(UNIDENTIFIED_HTS_FILETYPE)] else [])
    + (if f.genomeAssembly == "" then [CreateError(LACKS_GENOME_ASSEMBLY)] else [])
    + (if |f.sampleMap| == 0 then [CreateWarning(LACKS_SAMPLE_MAP)] else [])
  }

  /** Each finding of HtsFile::validate sits after those of the checks before it. */
  lemma HtsFileFindingsOrder(f: HtsFile)
    ensures var r := ValidateHtsFile(f);
      (f.uri == "" ==> r[0] == CreateError(HTSFILE_LACKS_URI))
      && (f.format == UNKNOWN ==> r[Flag(f.uri == "")] == CreateError(UNIDENTIFIED_HTS_FILETYPE))
      && (f.genomeAssembly == "" ==> r[Flag(f.uri == "") + Flag(f.format == UNKNOWN)] == CreateError(LACKS_GENOME_ASSEMBLY))
      && (|f.sampleMap| == 0 ==> r[Flag(f.uri == "") + Flag(f.format == UNKNOWN) + Flag(f.genomeAssembly == "")] == CreateWarning(LACKS_SAMPLE_MAP))
  {
    var a := if f.uri == "" then [CreateError(HTSFILE_LACKS_URI)] else [];
    var b := if f.format == UNKNOWN then [CreateError(UNIDENTIFIED_HTS_FILETYPE)] else [];
    var c := if f.genomeAssembly == "" then [CreateError(LACKS_GENOME_ASSEMBLY)] else [];
    var d := if |f.sampleMap| == 0 then [CreateWarning(LACKS_SAMPLE_MAP)] else [];
    assert ValidateHtsFile(f) == a + b + c + d;
    assert |a| == Flag(f.uri == "") && |b| == Flag(f.format == UNKNOWN) && |c| == Flag(f.genomeAssembly == "");
    ConcatPositions(a, b, c, d);
  }

  lemma ConcatPositions<T>(a: seq<T>, b: seq<T>, c: seq<T>, d: seq<T>)
    ensures |a| > 0 ==> (a + b + c + d)[0] == a[0]
    ensures |b| > 0 ==> (a + b + c + d)[|a|] == b[0]
    ensures |c| > 0 ==> (a + b + c + d)[|a| + |b|] == c[0]
    ensures |d| > 0 ==> (a + b + c + d)[|a| + |b| + |c|] == d[0]
  {
  }

  /** An HTS file with nothing set reports all four findings, in check order. */
  lemma EmptyHtsFile()
    ensures ValidateHtsFile(HtsFile("", "", UNKNOWN, "", map[]))
      == [CreateError(HTSFILE_LACKS_URI), CreateError(UNIDENTIFIED_HTS_FILETYPE),
          CreateError(LACKS_GENOME_ASSEMBLY), CreateWarning(LACKS_SAMPLE_MAP)]
  {
  }

  // ------------------------------------------------------------ metadata

  datatype Resource = Resource(
    id: string,
    name: string,
    namespacePrefix: string,
    url: string,
    version: string,
    iriPrefix: string)

  predicate WellFormedResource(res: Resource) {
    res.id != "" && res.name != "" && res.namespacePrefix != "" && res.url != "" && res.version != "" && res.iriPrefix != ""
  }

  /** The id, name and namespace-prefix checks of Resource::validate. */
  function ValidateResourceNaming(res: Resource): (r: seq<Validation>)
    ensures |r| == Flag(res.id == "") + Flag(res.name == "") + Flag(res.namespacePrefix == "")
    ensures res.id == "" ==> r[0] == CreateError(RESOURCE_LACKS_ID)
    ensures res.name == "" ==> r[Flag(res.id == "")] == CreateError(RESOURCE_LACKS_NAME)
    ensures res.namespacePrefix == "" ==> r[Flag(res.id == "") + Flag(res.name == "")] == CreateError(RESOURCE_LACKS_NAMESPACE_PREFIX)
    ensures forall v :: v in r ==> IsError(v)
    ensures r == [] <==> res.id != "" && res.name != "" && res.namespacePrefix != ""
  {
    (if res.id == "" then [CreateError(RESOURCE_LACKS_ID)] else [])
    + (if res.name == "" then [CreateError(RESOURCE_LACKS_NAME)] else [])
    + (if res.namespacePrefix == "" then [CreateError(RESOURCE_LACKS_NAMESPACE_PREFIX)] else [])
  }

  /** The url, version and IRI-prefix checks of Resource::validate. */
  function ValidateResourceLocation(res: Resource): (r: seq<Validation>)
    ensures |r| == Flag(res.url == "") + Flag(res.version == "") + Flag(res.iriPrefix == "")
    ensures res.url == "" ==> r[0] == CreateError(RESOURCE_LACKS_URL)
    ensures res.version == "" ==> r[Flag(res.url == "")] == CreateError(RESOURCE_LACKS_VERSION)
    ensures res.iriPrefix == "" ==> r[Flag(res.url == "") + Flag(res.version == "")] == CreateError(RESOURCE_LACKS_IRI_PREFIX)
    ensures forall v :: v in r ==> IsError(v)
    ensures r == [] <==> res.url != "" && res.version != "" && res.iriPrefix != ""
  {
    (if res.url == "" then [CreateError(RESOURCE_LACKS_URL)] else [])
    + (if res.version == "" then [CreateError(RESOURCE_LACKS_VERSION)] else [])
    + (if res.iriPrefix == "" then [CreateError(RESOURCE_LACKS_IRI_PREFIX)] else [])
  }

  /** Resource::validate: an ERROR for each of the six fields that is empty, in field order. */
  function ValidateResource(res: Resource): (r: seq<Validation>)
    ensures |r| == Flag(res.id == "") + Flag(res.name == "") + Flag(res.namespacePrefix == "") + Flag(res.url == "") + Flag(res.version == "") + Flag(res.iriPrefix == "")
    ensures res.id == "" ==> r[0] == CreateError(RESOURCE_LACKS_ID)
    ensures res.name == "" ==> r[Flag(res.id == "")] == CreateError(RESOURCE_LACKS_NAME)
    ensures res.namespacePrefix == "" ==> r[Flag(res.id == "") + Flag(res.name == "")] == CreateError(RESOURCE_LACKS_NAMESPACE_PREFIX)
    ensures res.url == "" ==> r[Flag(res.id == "") + Flag(res.name == "") + Flag(res.namespacePrefix == "")] == CreateError(RESOURCE_LACKS_URL)
    ensures res.version == "" ==> r[Flag(res.id == "") + Flag(res.name == "") + Flag(res.namespacePrefix == "") + Flag(res.url == "")] == CreateError(RESOURCE_LACKS_VERSION)
    ensures res.iriPrefix == "" ==> r[Flag(res.id == "") + Flag(res.name == "") + Flag(res.namespacePrefix == "") + Flag(res.url == "") + Flag(res.version == "")] == CreateError(RESOURCE_LACKS_IRI_PREFIX)
    ensures forall v :: v in r ==> IsError(v)
    ensures r == [] <==> WellFormedResource(res)
  {
    var naming := ValidateResourceNaming(res);
    var location := ValidateResourceLocation(res);
    ResourceParts(res, naming, location);
    naming + location
  }

  /** The two parts of Resource::validate, in order, give its findings. */
  lemma ResourceParts(res: Resource, naming: seq<Validation>, location: seq<Validation>)
    requires |naming| == Flag(res.id == "") + Flag(res.name == "") + Flag(res.namespacePrefix == "")
    requires res.id == "" ==> naming[0] == CreateError(RESOURCE_LACKS_ID)
    requires res.name == "" ==> naming[Flag(res.id == "")] == CreateError(RESOURCE_LACKS_NAME)
    requires res.namespacePrefix == "" ==> naming[Flag(res.id == "") + Flag(res.name == "")] == CreateError(RESOURCE_LACKS_NAMESPACE_PREFIX)
    requires forall v :: v in naming ==> IsError(v)
    requires naming == [] <==> res.id != "" && res.name != "" && res.namespacePrefix != ""
    requires |location| == Flag(res.url == "") + Flag(res.version == "") + Flag(res.iriPrefix == "")
    requires res.url == "" ==> location[0] == CreateError(RESOURCE_LACKS_URL)
    requires res.version == "" ==> location[Flag(res.url == "")] == CreateError(RESOURCE_LACKS_VERSION)
    requires res.iriPrefix == "" ==> location[Flag(res.url == "") + Flag(res.version == "")] == CreateError(RESOURCE_LACKS_IRI_PREFIX)
    requires forall v :: v in location ==> IsError(v)
    requires location == [] <==> res.url != "" && res.version != "" && res.iriPrefix != ""
    ensures |naming + location| == Flag(res.id == "") + Flag(res.name == "") + Flag(res.namespacePrefix == "") + Flag(res.url == "") + Flag(res.version == "") + Flag(res.iriPrefix == "")
    ensures res.id == "" ==> (naming + location)[0] == CreateError(RESOURCE_LACKS_ID)
    ensures res.name == "" ==> (naming + location)[Flag(res.id == "")] == CreateError(RESOURCE_LACKS_NAME)
    ensures res.namespacePrefix == "" ==> (naming + location)[Flag(res.id == "") + Flag(res.name == "")] == CreateError(RESOURCE_LACKS_NAMESPACE_PREFIX)
    ensures res.url == "" ==> (naming + location)[Flag(res.id == "") + Flag(res.name == "") + Flag(res.namespacePrefix == "")] == CreateError(RESOURCE_LACKS_URL)
    ensures res.version == "" ==> (naming + location)[Flag(res.id == "") + Flag(res.name == "") + Flag(res.namespacePrefix == "") + Flag(res.url == "")] == CreateError(RESOURCE_LACKS_VERSION)
    ensures res.iriPrefix == "" ==> (naming + location)[Flag(res.id == "") + Flag(res.name == "") + Flag(res.namespacePrefix == "") + Flag(res.url == "") + Flag(res.version == "")] == CreateError(RESOURCE_LACKS_IRI_PREFIX)
    ensures forall v :: v in naming + location ==> IsError(v)
    ensures naming + location == [] <==> WellFormedResource(res)
  {
  }

  /** The timestamp is kept as its text, "" when it is not set. */
  datatype MetaData = MetaData(
    created: string,
    createdBy: string,
    submittedBy: string,
    resources: seq<Resource>,
    schemaVersion: string,
    externalReferences: seq<ExternalReference>)

  predicate MetaDataCause(c: ValidationCause) {
    c == METADATA_LACKS_CREATED_TIMESTAMP || c == METADATA_LACKS_CREATED_BY || c == METADATA_LACKS_RESOURCES
  }

  predicate WellFormedMetaData(md: MetaData) {
    md.created != "" && md.createdBy != "" && md.resources != []
  }

  /**
   * MetaData::validate: ERRORs for a missing creation time, a missing
   * creator and an empty resource list, in that order; the resources
   * themselves and the optional fields are not checked.
   */
  function ValidateMetaData(md: MetaData): (r: seq<Validation>)
    ensures |r| == Flag(md.created == "") + Flag(md.createdBy == "") + Flag(md.resources == [])
    ensures md.created == "" ==> r[0] == CreateError(METADATA_LACKS_CREATED_TIMESTAMP)
    ensures md.createdBy == "" ==> r[Flag(md.created == "")] == CreateError(METADATA_LACKS_CREATED_BY)
    ensures md.resources == [] ==> r[Flag(md.created == "") + Flag(md.createdBy == "")] == CreateError(METADATA_LACKS_RESOURCES)
    ensures CreateError(METADATA_LACKS_CREATED_TIMESTAMP) in r <==> md.created == ""
    ensures CreateError(METADATA_LACKS_CREATED_BY) in r <==> md.createdBy == ""
    ensures CreateError(METADATA_LACKS_RESOURCES) in r <==> md.resources == []
    ensures forall v :: v in r ==> IsError(v) && MetaDataCause(v.cause)
    ensures r == [] <==> WellFormedMetaData(md)
  {
    (if md.created == "" then [CreateError(METADATA_LACKS_CREATED_TIMESTAMP)] else [])
    + (if md.createdBy == "" then [CreateError(METADATA_LACKS_CREATED_BY)] else [])
    + (if md.resources == [] then [CreateError(METADATA_LACKS_RESOURCES)] else [])
  }

  /** Metadata with a time stamp but no creator and no resources: two ERRORs, creator first. */
  lemma MetaDataWithTimestampOnly(created: string)
    requires created != ""
    ensures ValidateMetaData(MetaData(created, "", "", [], "", []))
      == [CreateError(METADATA_LACKS_CREATED_BY), CreateError(METADATA_LACKS_RESOURCES)]
  {
  }

  // ------------------------------------------------------------ procedure

  datatype Procedure = Procedure(code: Option<OntologyClass>, bodySite: Option<OntologyClass>)

  /** Procedure::validate: an ERROR when the code is missing, else the code's findings. */
  function ValidateProcedure(pr: Procedure): (r: seq<Validation>)
    ensures CreateError(PROCEDURE_LACKS_CODE) in r <==> pr.code.None?
    ensures forall v :: v in r ==> OntologyClassCause(v.cause) || v == CreateError(PROCEDURE_LACKS_CODE)
    ensures r == [] <==> WellFormedTerm(pr.code)
  {
    CheckTerm(pr.code, CreateError(PROCEDURE_LACKS_CODE))
  }

  // ------------------------------------------------------------ biosample

  /**
   * The fields of a biosample that validate looks at; the dataset and
   * individual ids, the description, the taxonomy, the procedure, the HTS
   * files, the variants and the control flag are optional and not checked.
   */
  datatype Biosample = Biosample(
    id: string,
    sampledTissue: Option<OntologyClass>,
    phenotypicFeatures: seq<PhenotypicFeature>,
    ageAtCollection: Option<Age>,
    ageRangeAtCollection: Option<AgeRange>,
    histologicalDiagnosis: Option<OntologyClass>,
    tumorProgression: Option<OntologyClass>,
    tumorGrade: Option<OntologyClass>,
    tumorStage: seq<OntologyClass>,
    diagnosticMarkers: seq<OntologyClass>)

  predicate TumorCause(c: ValidationCause) {
    OntologyClassCause(c) || c == BIOSAMPLE_LACKS_HISTOLOGY || c == BIOSAMPLE_LACKS_TUMOR_PROGRESSION
    || c == BIOSAMPLE_LACKS_TUMOR_GRADE || c == BIOSAMPLE_LACKS_TUMOR_STAGE || c == BIOSAMPLE_LACKS_DIAGNOSTIC_MARKERS
  }

  /** The causes a biosample reports about itself, its terms and its ages. */
  predicate BiosampleOwnCause(c: ValidationCause) {
    TumorCause(c) || c == AGE_ELEMENT_UNINITIALIZED
    || c == BIOSAMPLE_LACKS_ID || c == BIOSAMPLE_LACKS_SAMPLED_TISSUE || c == BIOSAMPLE_LACKS_PHENOTYPES
    || c == BIOSAMPLE_LACKS_AGE
  }

  predicate BiosampleCause(c: ValidationCause) {
    BiosampleOwnCause(c) || FeatureCause(c)
  }

  predicate WellFormedTumor(b: Biosample) {
    WellFormedTerm(b.histologicalDiagnosis) && WellFormedTerm(b.tumorProgression) && WellFormedTerm(b.tumorGrade)
    && b.tumorStage != [] && AllWellFormedTerms(b.tumorStage)
    && b.diagnosticMarkers != [] && AllWellFormedTerms(b.diagnosticMarkers)
  }

  predicate WellFormedBiosample(b: Biosample) {
    b.id != "" && WellFormedTerm(b.sampledTissue)
    && b.phenotypicFeatures != [] && AllWellFormedFeatures(b.phenotypicFeatures)
    && WellFormedAgeChoice(b.ageAtCollection, b.ageRangeAtCollection)
    && WellFormedTumor(b)
  }

  /** What the biosample check as written lets through silently: as intended, except that it must have no features. */
  predicate AsWrittenCleanBiosample(b: Biosample) {
    b.id != "" && WellFormedTerm(b.sampledTissue)
    && b.phenotypicFeatures == []
    && WellFormedAgeChoice(b.ageAtCollection, b.ageRangeAtCollection)
    && WellFormedTumor(b)
  }

  /** The histology, progression and grade part of the tumour checks. */
  function ValidateTumorDiagnosis(b: Biosample): (r: seq<Validation>)
    ensures CreateWarning(BIOSAMPLE_LACKS_HISTOLOGY) in r <==> b.histologicalDiagnosis.None?
    ensures CreateWarning(BIOSAMPLE_LACKS_TUMOR_PROGRESSION) in r <==> b.tumorProgression.None?
    ensures CreateWarning(BIOSAMPLE_LACKS_TUMOR_GRADE) in r <==> b.tumorGrade.None?
    ensures forall v :: v in r ==> OntologyClassCause(v.cause) || v == CreateWarning(BIOSAMPLE_LACKS_HISTOLOGY) || v == CreateWarning(BIOSAMPLE_LACKS_TUMOR_PROGRESSION) || v == CreateWarning(BIOSAMPLE_LACKS_TUMOR_GRADE)
    ensures r == [] <==> WellFormedTerm(b.histologicalDiagnosis) && WellFormedTerm(b.tumorProgression) && WellFormedTerm(b.tumorGrade)
  {
    var histology := CheckTerm(b.histologicalDiagnosis, CreateWarning(BIOSAMPLE_LACKS_HISTOLOGY));
    var progression := CheckTerm(b.tumorProgression, CreateWarning(BIOSAMPLE_LACKS_TUMOR_PROGRESSION));
    var grade := CheckTerm(b.tumorGrade, CreateWarning(BIOSAMPLE_LACKS_TUMOR_GRADE));
    TumorDiagnosisParts(b, histology, progression, grade);
    histology + progression + grade
  }

  /** The histology, progression and grade checks, in order, give the diagnosis part's findings. */
  lemma TumorDiagnosisParts(b: Biosample, histology: seq<Validation>, progression: seq<Validation>, grade: seq<Validation>)
    requires b.histologicalDiagnosis.None? ==> histology == [CreateWarning(BIOSAMPLE_LACKS_HISTOLOGY)]
    requires b.histologicalDiagnosis.Some? ==> forall v :: v in histology ==> OntologyClassCause(v.cause)
    requires histology == [] <==> WellFormedTerm(b.histologicalDiagnosis)
    requires b.tumorProgression.None? ==> progression == [CreateWarning(BIOSAMPLE_LACKS_TUMOR_PROGRESSION)]
    requires b.tumorProgression.Some? ==> forall v :: v in progression ==> OntologyClassCause(v.cause)
    requires progression == [] <==> WellFormedTerm(b.tumorProgression)
    requires b.tumorGrade.None? ==> grade == [CreateWarning(BIOSAMPLE_LACKS_TUMOR_GRADE)]
    requires b.tumorGrade.Some? ==> forall v :: v in grade ==> OntologyClassCause(v.cause)
    requires grade == [] <==> WellFormedTerm(b.tumorGrade)
    ensures CreateWarning(BIOSAMPLE_LACKS_HISTOLOGY) in histology + progression + grade <==> b.histologicalDiagnosis.None?
    ensures CreateWarning(BIOSAMPLE_LACKS_TUMOR_PROGRESSION) in histology + progression + grade <==> b.tumorProgression.None?
    ensures CreateWarning(BIOSAMPLE_LACKS_TUMOR_GRADE) in histology + progression + grade <==> b.tumorGrade.None?
    ensures forall v :: v in histology + progression + grade ==> OntologyClassCause(v.cause) || v == CreateWarning(BIOSAMPLE_LACKS_HISTOLOGY) || v == CreateWarning(BIOSAMPLE_LACKS_TUMOR_PROGRESSION) || v == CreateWarning(BIOSAMPLE_LACKS_TUMOR_GRADE)
    ensures histology + progression + grade == [] <==> WellFormedTerm(b.histologicalDiagnosis) && WellFormedTerm(b.tumorProgression) && WellFormedTerm(b.tumorGrade)
  {
  }

  /** The stage and diagnostic-marker part of the tumour checks. */
  function ValidateTumorStaging(b: Biosample): (r: seq<Validation>)
    ensures CreateWarning(BIOSAMPLE_LACKS_TUMOR_STAGE) in r <==> b.tumorStage == []
    ensures CreateWarning(BIOSAMPLE_LACKS_DIAGNOSTIC_MARKERS) in r <==> b.diagnosticMarkers == []
    ensures forall v :: v in r ==> OntologyClassCause(v.cause) || v == CreateWarning(BIOSAMPLE_LACKS_TUMOR_STAGE) || v == CreateWarning(BIOSAMPLE_LACKS_DIAGNOSTIC_MARKERS)
    ensures r == [] <==> b.tumorStage != [] && AllWellFormedTerms(b.tumorStage) && b.diagnosticMarkers != [] && AllWellFormedTerms(b.diagnosticMarkers)
  {
    var stage := CheckTerms(b.tumorStage, CreateWarning(BIOSAMPLE_LACKS_TUMOR_STAGE));
    var markers := CheckTerms(b.diagnosticMarkers, CreateWarning(BIOSAMPLE_LACKS_DIAGNOSTIC_MARKERS));
    assert CreateWarning(BIOSAMPLE_LACKS_TUMOR_STAGE) !in markers && CreateWarning(BIOSAMPLE_LACKS_DIAGNOSTIC_MARKERS) !in stage;
    stage + markers
  }

  /**
   * The tumour part of Biosample::validate: for the histological diagnosis,
   * the tumour progression and the tumour grade, a WARNING when missing or
   * the term's findings; for the tumour stages and the diagnostic markers,
   * a WARNING when there are none or each term's findings.
   */
  function ValidateTumor(b: Biosample): (r: seq<Validation>)
    ensures CreateWarning(BIOSAMPLE_LACKS_HISTOLOGY) in r <==> b.histologicalDiagnosis.None?
    ensures CreateWarning(BIOSAMPLE_LACKS_TUMOR_PROGRESSION) in r <==> b.tumorProgression.None?
    ensures CreateWarning(BIOSAMPLE_LACKS_TUMOR_GRADE) in r <==> b.tumorGrade.None?
    ensures CreateWarning(BIOSAMPLE_LACKS_TUMOR_STAGE) in r <==> b.tumorStage == []
    ensures CreateWarning(BIOSAMPLE_LACKS_DIAGNOSTIC_MARKERS) in r <==> b.diagnosticMarkers == []
    ensures forall v :: v in r ==> TumorCause(v.cause)
    ensures r == [] <==> WellFormedTumor(b)
  {
    var diagnosis := ValidateTumorDiagnosis(b);
    var staging := ValidateTumorStaging(b);
    TumorParts(b, diagnosis, staging);
    diagnosis + staging
  }

  /** The diagnosis part and the staging part, in order, give the tumour findings. */
  lemma TumorParts(b: Biosample, diagnosis: seq<Validation>, staging: seq<Validation>)
    requires CreateWarning(BIOSAMPLE_LACKS_HISTOLOGY) in diagnosis <==> b.histologicalDiagnosis.None?
    requires CreateWarning(BIOSAMPLE_LACKS_TUMOR_PROGRESSION) in diagnosis <==> b.tumorProgression.None?
    requires CreateWarning(BIOSAMPLE_LACKS_TUMOR_GRADE) in diagnosis <==> b.tumorGrade.None?
    requires forall v :: v in diagnosis ==> OntologyClassCause(v.cause) || v == CreateWarning(BIOSAMPLE_LACKS_HISTOLOGY) || v == CreateWarning(BIOSAMPLE_LACKS_TUMOR_PROGRESSION) || v == CreateWarning(BIOSAMPLE_LACKS_TUMOR_GRADE)
    requires diagnosis == [] <==> WellFormedTerm(b.histologicalDiagnosis) && WellFormedTerm(b.tumorProgression) && WellFormedTerm(b.tumorGrade)
    requires CreateWarning(BIOSAMPLE_LACKS_TUMOR_STAGE) in staging <==> b.tumorStage == []
    requires CreateWarning(BIOSAMPLE_LACKS_DIAGNOSTIC_MARKERS) in staging <==> b.diagnosticMarkers == []
    requires forall v :: v in staging ==> OntologyClassCause(v.cause) || v == CreateWarning(BIOSAMPLE_LACKS_TUMOR_STAGE) || v == CreateWarning(BIOSAMPLE_LACKS_DIAGNOSTIC_MARKERS)
    requires staging == [] <==> b.tumorStage != [] && AllWellFormedTerms(b.tumorStage) && b.diagnosticMarkers != [] && AllWellFormedTerms(b.diagnosticMarkers)
    ensures CreateWarning(BIOSAMPLE_LACKS_HISTOLOGY) in diagnosis + staging <==> b.histologicalDiagnosis.None?
    ensures CreateWarning(BIOSAMPLE_LACKS_TUMOR_PROGRESSION) in diagnosis + staging <==> b.tumorProgression.None?
    ensures CreateWarning(BIOSAMPLE_LACKS_TUMOR_GRADE) in diagnosis + staging <==> b.tumorGrade.None?
    ensures CreateWarning(BIOSAMPLE_LACKS_TUMOR_STAGE) in diagnosis + staging <==> b.tumorStage == []
    ensures CreateWarning(BIOSAMPLE_LACKS_DIAGNOSTIC_MARKERS) in diagnosis + staging <==> b.diagnosticMarkers == []
    ensures forall v :: v in diagnosis + staging ==> TumorCause(v.cause)
    ensures diagnosis + staging == [] <==> WellFormedTumor(b)
  {
  }

  /**
   * The phenotype part of Biosample::validate as written: the condition is
   * inverted, so a biosample WITH features gets the missing-phenotypes
   * WARNING, and for one without features the feature loop runs zero times.
   */
  function AsWrittenBiosamplePhenotypes(fs: seq<PhenotypicFeature>): (r: seq<Validation>)
    ensures CreateWarning(BIOSAMPLE_LACKS_PHENOTYPES) in r <==> fs != []
    ensures forall v :: v in r ==> v == CreateWarning(BIOSAMPLE_LACKS_PHENOTYPES)
  {
    if fs != [] then [CreateWarning(BIOSAMPLE_LACKS_PHENOTYPES)] else []
  }

  /**
   * The phenotype part of Biosample::validate as intended: a WARNING when
   * the biosample has no features, else each feature's findings.
   */
  function BiosamplePhenotypes(fs: seq<PhenotypicFeature>): (r: seq<Validation>)
    ensures CreateWarning(BIOSAMPLE_LACKS_PHENOTYPES) in r <==> fs == []
    ensures CreateError(PHENOTYPIC_FEATURE_LACKS_ONTOLOGY_TERM) in r <==> SomeFeatureLacksTerm(fs)
    ensures forall v :: v in r ==> FeatureCause(v.cause) || v == CreateWarning(BIOSAMPLE_LACKS_PHENOTYPES)
    ensures r == [] <==> fs != [] && AllWellFormedFeatures(fs)
  {
    if fs == [] then [CreateWarning(BIOSAMPLE_LACKS_PHENOTYPES)]
    else
      var r := FeatureListFindings(fs);
      FeaturesLackNoWarning(r);
      r
  }

  /** The id and sampled-tissue part of Biosample::validate. */
  function ValidateBiosampleIdentity(b: Biosample): (r: seq<Validation>)
    ensures CreateError(BIOSAMPLE_LACKS_ID) in r <==> b.id == ""
    ensures CreateError(BIOSAMPLE_LACKS_SAMPLED_TISSUE) in r <==> b.sampledTissue.None?
    ensures forall v :: v in r ==> OntologyClassCause(v.cause) || v == CreateError(BIOSAMPLE_LACKS_ID) || v == CreateError(BIOSAMPLE_LACKS_SAMPLED_TISSUE)
    ensures r == [] <==> b.id != "" && WellFormedTerm(b.sampledTissue)
  {
    (if b.id == "" then [CreateError(BIOSAMPLE_LACKS_ID)] else [])
    + CheckTerm(b.sampledTissue, CreateError(BIOSAMPLE_LACKS_SAMPLED_TISSUE))
  }

  /** The phenotype and age part of Biosample::validate as written. */
  function AsWrittenValidateBiosampleCollection(b: Biosample): (r: seq<Validation>)
    ensures CreateWarning(BIOSAMPLE_LACKS_PHENOTYPES) in r <==> b.phenotypicFeatures != []
    ensures CreateWarning(BIOSAMPLE_LACKS_AGE) in r <==> b.ageAtCollection.None? && b.ageRangeAtCollection.None?
    ensures forall v :: v in r ==> v == CreateWarning(BIOSAMPLE_LACKS_PHENOTYPES) || v == CreateWarning(BIOSAMPLE_LACKS_AGE) || v == CreateError(AGE_ELEMENT_UNINITIALIZED)
    ensures r == [] <==> b.phenotypicFeatures == [] && WellFormedAgeChoice(b.ageAtCollection, b.ageRangeAtCollection)
  {
    var phenotypes := AsWrittenBiosamplePhenotypes(b.phenotypicFeatures);
    var age := CheckAge(b.ageAtCollection, b.ageRangeAtCollection, BIOSAMPLE_LACKS_AGE);
    CollectionParts(b, phenotypes, age);
    phenotypes + age
  }

  /** The phenotype and age part of Biosample::validate as intended. */
  function ValidateBiosampleCollection(b: Biosample): (r: seq<Validation>)
    ensures CreateWarning(BIOSAMPLE_LACKS_PHENOTYPES) in r <==> b.phenotypicFeatures == []
    ensures CreateError(PHENOTYPIC_FEATURE_LACKS_ONTOLOGY_TERM) in r <==>
      SomeFeatureLacksTerm(b.phenotypicFeatures)
    ensures CreateWarning(BIOSAMPLE_LACKS_AGE) in r <==> b.ageAtCollection.None? && b.ageRangeAtCollection.None?
    ensures forall v :: v in r ==> FeatureCause(v.cause) || v == CreateWarning(BIOSAMPLE_LACKS_PHENOTYPES) || v == CreateWarning(BIOSAMPLE_LACKS_AGE) || v == CreateError(AGE_ELEMENT_UNINITIALIZED)
    ensures r == [] <==> b.phenotypicFeatures != [] && AllWellFormedFeatures(b.phenotypicFeatures) && WellFormedAgeChoice(b.ageAtCollection, b.ageRangeAtCollection)
  {
    var phenotypes := BiosamplePhenotypes(b.phenotypicFeatures);
    var age := CheckAge(b.ageAtCollection, b.ageRangeAtCollection, BIOSAMPLE_LACKS_AGE);
    CollectionParts(b, phenotypes, age);
    phenotypes + age
  }

  /** The phenotype part and the age part, in order, give the collection findings. */
  lemma CollectionParts(b: Biosample, phenotypes: seq<Validation>, age: seq<Validation>)
    requires forall v :: v in phenotypes ==> FeatureCause(v.cause) || v == CreateWarning(BIOSAMPLE_LACKS_PHENOTYPES)
    requires b.ageAtCollection.None? && b.ageRangeAtCollection.None? ==> age == [CreateWarning(BIOSAMPLE_LACKS_AGE)]
    requires b.ageAtCollection.Some? || b.ageRangeAtCollection.Some? ==> forall v :: v in age ==> v == CreateError(AGE_ELEMENT_UNINITIALIZED)
    requires age == [] <==> WellFormedAgeChoice(b.ageAtCollection, b.ageRangeAtCollection)
    ensures CreateWarning(BIOSAMPLE_LACKS_PHENOTYPES) in phenotypes + age <==> CreateWarning(BIOSAMPLE_LACKS_PHENOTYPES) in phenotypes
    ensures CreateError(PHENOTYPIC_FEATURE_LACKS_ONTOLOGY_TERM) in phenotypes + age <==> CreateError(PHENOTYPIC_FEATURE_LACKS_ONTOLOGY_TERM) in phenotypes
    ensures CreateWarning(BIOSAMPLE_LACKS_AGE) in phenotypes + age <==> b.ageAtCollection.None? && b.ageRangeAtCollection.None?
    ensures forall v :: v in phenotypes + age ==> v in phenotypes || v == CreateWarning(BIOSAMPLE_LACKS_AGE) || v == CreateError(AGE_ELEMENT_UNINITIALIZED)
    ensures phenotypes + age == [] <==> phenotypes == [] && WellFormedAgeChoice(b.ageAtCollection, b.ageRangeAtCollection)
  {
  }

  /**
   * Biosample::validate as written: an ERROR for a missing id; an ERROR for
   * a missing sampled tissue, else its findings; the inverted phenotype
   * check; the age's findings, else the age range's, or a WARNING when
   * there is neither; then the tumour part. No feature is ever checked.
   */
  function AsWrittenBiosampleFindings(b: Biosample): (r: seq<Validation>)
    ensures CreateError(BIOSAMPLE_LACKS_ID) in r <==> b.id == ""
    ensures CreateError(BIOSAMPLE_LACKS_SAMPLED_TISSUE) in r <==> b.sampledTissue.None?
    ensures CreateWarning(BIOSAMPLE_LACKS_PHENOTYPES) in r <==> b.phenotypicFeatures != []
    ensures CreateWarning(BIOSAMPLE_LACKS_AGE) in r <==> b.ageAtCollection.None? && b.ageRangeAtCollection.None?
    ensures forall v :: v in r ==> BiosampleOwnCause(v.cause)
    ensures r == [] <==> AsWrittenCleanBiosample(b)
  {
    var identity := ValidateBiosampleIdentity(b);
    var collection := AsWrittenValidateBiosampleCollection(b);
    var tumor := ValidateTumor(b);
    AsWrittenBiosampleParts(b, identity, collection, tumor);
    identity + collection + tumor
  }

  /** The identity, as-written collection and tumour parts of Biosample::validate, in order, give its findings. */
  lemma AsWrittenBiosampleParts(b: Biosample, identity: seq<Validation>, collection: seq<Validation>, tumor: seq<Validation>)
    requires CreateError(BIOSAMPLE_LACKS_ID) in identity <==> b.id == ""
    requires CreateError(BIOSAMPLE_LACKS_SAMPLED_TISSUE) in identity <==> b.sampledTissue.None?
    requires forall v :: v in identity ==> OntologyClassCause(v.cause) || v == CreateError(BIOSAMPLE_LACKS_ID) || v == CreateError(BIOSAMPLE_LACKS_SAMPLED_TISSUE)
    requires identity == [] <==> b.id != "" && WellFormedTerm(b.sampledTissue)
    requires CreateWarning(BIOSAMPLE_LACKS_PHENOTYPES) in collection <==> b.phenotypicFeatures != []
    requires CreateWarning(BIOSAMPLE_LACKS_AGE) in collection <==> b.ageAtCollection.None? && b.ageRangeAtCollection.None?
    requires forall v :: v in collection ==> v == CreateWarning(BIOSAMPLE_LACKS_PHENOTYPES) || v == CreateWarning(BIOSAMPLE_LACKS_AGE) || v == CreateError(AGE_ELEMENT_UNINITIALIZED)
    requires collection == [] <==> b.phenotypicFeatures == [] && WellFormedAgeChoice(b.ageAtCollection, b.ageRangeAtCollection)
    requires forall v :: v in tumor ==> TumorCause(v.cause)
    requires tumor == [] <==> WellFormedTumor(b)
    ensures CreateError(BIOSAMPLE_LACKS_ID) in identity + collection + tumor <==> b.id == ""
    ensures CreateError(BIOSAMPLE_LACKS_SAMPLED_TISSUE) in identity + collection + tumor <==> b.sampledTissue.None?
    ensures CreateWarning(BIOSAMPLE_LACKS_PHENOTYPES) in identity + collection + tumor <==> b.phenotypicFeatures != []
    ensures CreateWarning(BIOSAMPLE_LACKS_AGE) in identity + collection + tumor <==> b.ageAtCollection.None? && b.ageRangeAtCollection.None?
    ensures forall v :: v in identity + collection + tumor ==> BiosampleOwnCause(v.cause)
    ensures identity + collection + tumor == [] <==> AsWrittenCleanBiosample(b)
  {
    assert CreateError(BIOSAMPLE_LACKS_ID) !in collection && CreateError(BIOSAMPLE_LACKS_ID) !in tumor;
    assert CreateError(BIOSAMPLE_LACKS_SAMPLED_TISSUE) !in collection && CreateError(BIOSAMPLE_LACKS_SAMPLED_TISSUE) !in tumor;
    assert CreateWarning(BIOSAMPLE_LACKS_PHENOTYPES) !in identity && CreateWarning(BIOSAMPLE_LACKS_PHENOTYPES) !in tumor;
    assert CreateWarning(BIOSAMPLE_LACKS_AGE) !in identity && CreateWarning(BIOSAMPLE_LACKS_AGE) !in tumor;
  }

  /**
   * Biosample::validate as intended: as written, except that the
   * missing-phenotypes WARNING is given when there are no features, and
   * each feature's findings otherwise.
   */
  function BiosampleFindings(b: Biosample): (r: seq<Validation>)
    ensures CreateError(BIOSAMPLE_LACKS_ID) in r <==> b.id == ""
    ensures CreateError(BIOSAMPLE_LACKS_SAMPLED_TISSUE) in r <==> b.sampledTissue.None?
    ensures CreateWarning(BIOSAMPLE_LACKS_PHENOTYPES) in r <==> b.phenotypicFeatures == []
    ensures CreateError(PHENOTYPIC_FEATURE_LACKS_ONTOLOGY_TERM) in r <==>
      SomeFeatureLacksTerm(b.phenotypicFeatures)
    ensures CreateWarning(BIOSAMPLE_LACKS_AGE) in r <==> b.ageAtCollection.None? && b.ageRangeAtCollection.None?
    ensures forall v :: v in r ==> BiosampleCause(v.cause)
    ensures r == [] <==> WellFormedBiosample(b)
  {
    var identity := ValidateBiosampleIdentity(b);
    var collection := ValidateBiosampleCollection(b);
    var tumor := ValidateTumor(b);
    BiosampleParts(b, identity, collection, tumor);
    identity + collection + tumor
  }

  /**
   * The identity, collection and tumour parts of Biosample::validate, in
   * order, give its findings; the collection part alone speaks of
   * phenotypes and of the age, and reports no feature causes of its own
   * beyond those of the features.
   */
  lemma BiosampleParts(b: Biosample, identity: seq<Validation>, collection: seq<Validation>, tumor: seq<Validation>)
    requires CreateError(BIOSAMPLE_LACKS_ID) in identity <==> b.id == ""
    requires CreateError(BIOSAMPLE_LACKS_SAMPLED_TISSUE) in identity <==> b.sampledTissue.None?
    requires forall v :: v in identity ==> OntologyClassCause(v.cause) || v == CreateError(BIOSAMPLE_LACKS_ID) || v == CreateError(BIOSAMPLE_LACKS_SAMPLED_TISSUE)
    requires identity == [] <==> b.id != "" && WellFormedTerm(b.sampledTissue)
    requires CreateWarning(BIOSAMPLE_LACKS_AGE) in collection <==> b.ageAtCollection.None? && b.ageRangeAtCollection.None?
    requires forall v :: v in collection ==> FeatureCause(v.cause) || v == CreateWarning(BIOSAMPLE_LACKS_PHENOTYPES) || v == CreateWarning(BIOSAMPLE_LACKS_AGE) || v == CreateError(AGE_ELEMENT_UNINITIALIZED)
    requires forall v :: v in tumor ==> TumorCause(v.cause)
    requires tumor == [] <==> WellFormedTumor(b)
    ensures CreateError(BIOSAMPLE_LACKS_ID) in identity + collection + tumor <==> b.id == ""
    ensures CreateError(BIOSAMPLE_LACKS_SAMPLED_TISSUE) in identity + collection + tumor <==> b.sampledTissue.None?
    ensures CreateWarning(BIOSAMPLE_LACKS_PHENOTYPES) in identity + collection + tumor <==> CreateWarning(BIOSAMPLE_LACKS_PHENOTYPES) in collection
    ensures CreateError(PHENOTYPIC_FEATURE_LACKS_ONTOLOGY_TERM) in identity + collection + tumor <==> CreateError(PHENOTYPIC_FEATURE_LACKS_ONTOLOGY_TERM) in collection
    ensures CreateWarning(BIOSAMPLE_LACKS_AGE) in identity + collection + tumor <==> b.ageAtCollection.None? && b.ageRangeAtCollection.None?
    ensures forall v :: v in identity + collection + tumor ==> BiosampleCause(v.cause) && (FeatureOwnCause(v.cause) ==> v in collection)
    ensures identity + collection + tumor == [] <==> identity == [] && collection == [] && WellFormedTumor(b)
  {
    assert CreateError(BIOSAMPLE_LACKS_ID) !in collection && CreateError(BIOSAMPLE_LACKS_ID) !in tumor;
    assert CreateError(BIOSAMPLE_LACKS_SAMPLED_TISSUE) !in collection && CreateError(BIOSAMPLE_LACKS_SAMPLED_TISSUE) !in tumor;
    assert CreateWarning(BIOSAMPLE_LACKS_PHENOTYPES) !in identity && CreateWarning(BIOSAMPLE_LACKS_PHENOTYPES) !in tumor;
    assert CreateError(PHENOTYPIC_FEATURE_LACKS_ONTOLOGY_TERM) !in identity && CreateError(PHENOTYPIC_FEATURE_LACKS_ONTOLOGY_TERM) !in tumor;
    assert CreateWarning(BIOSAMPLE_LACKS_AGE) !in identity && CreateWarning(BIOSAMPLE_LACKS_AGE) !in tumor;
  }

  /**
   * The tumour checks as Biosample::validate runs them: a WARNING for each
   * missing term, the term's findings otherwise, and a loop over the
   * stages and one over the markers.
   */
  method ValidateTumorLoops(b: Biosample) returns (r: seq<Validation>)
    ensures r == ValidateTumor(b)
  {
    var diagnosis := ValidateTumorDiagnosis(b);
    var stage, markers;
    if b.tumorStage == [] {
      stage := [CreateWarning(BIOSAMPLE_LACKS_TUMOR_STAGE)];
    } else {
      stage := ValidateTermList(b.tumorStage);
    }
    if b.diagnosticMarkers == [] {
      markers := [CreateWarning(BIOSAMPLE_LACKS_DIAGNOSTIC_MARKERS)];
    } else {
      markers := ValidateTermList(b.diagnosticMarkers);
    }
    assert stage + markers == ValidateTumorStaging(b);
    r := diagnosis + (stage + markers);
  }

  /** Biosample::validate as intended, with its loops. */
  method ValidateBiosample(b: Biosample) returns (r: seq<Validation>)
    ensures r == BiosampleFindings(b)
  {
    var identity := ValidateBiosampleIdentity(b);
    var phenotypes;
    if b.phenotypicFeatures == [] {
      phenotypes := [CreateWarning(BIOSAMPLE_LACKS_PHENOTYPES)];
    } else {
      phenotypes := ValidateFeatureList(b.phenotypicFeatures);
    }
    var age := CheckAge(b.ageAtCollection, b.ageRangeAtCollection, BIOSAMPLE_LACKS_AGE);
    assert phenotypes + age == ValidateBiosampleCollection(b);
    var tumor := ValidateTumorLoops(b);
    r := identity + (phenotypes + age) + tumor;
  }

  /** Biosample::validate as written, with its loops: the feature loop runs only over an empty list. */
  method AsWrittenValidateBiosample(b: Biosample) returns (r: seq<Validation>)
    ensures r == AsWrittenBiosampleFindings(b)
  {
    var identity := ValidateBiosampleIdentity(b);
    var phenotypes;
    if b.phenotypicFeatures != [] {
      phenotypes := [CreateWarning(BIOSAMPLE_LACKS_PHENOTYPES)];
    } else {
      phenotypes := ValidateFeatureList(b.phenotypicFeatures);
    }
    var age := CheckAge(b.ageAtCollection, b.ageRangeAtCollection, BIOSAMPLE_LACKS_AGE);
    assert phenotypes + age == AsWrittenValidateBiosampleCollection(b);
    var tumor := ValidateTumorLoops(b);
    r := identity + (phenotypes + age) + tumor;
  }

  /**
   * For every biosample with a feature that has no type, the as-written
   * check warns that it has no phenotypes and never reports the feature's
   * missing type; the intended check does the opposite.
   */
  lemma AsWrittenBiosampleInvertsPhenotypes(b: Biosample)
    requires SomeFeatureLacksTerm(b.phenotypicFeatures)
    ensures CreateWarning(BIOSAMPLE_LACKS_PHENOTYPES) in AsWrittenBiosampleFindings(b)
    ensures CreateError(PHENOTYPIC_FEATURE_LACKS_ONTOLOGY_TERM) !in AsWrittenBiosampleFindings(b)
    ensures CreateWarning(BIOSAMPLE_LACKS_PHENOTYPES) !in BiosampleFindings(b)
    ensures CreateError(PHENOTYPIC_FEATURE_LACKS_ONTOLOGY_TERM) in BiosampleFindings(b)
  {
    assert b.phenotypicFeatures != [];
    assert !BiosampleOwnCause(PHENOTYPIC_FEATURE_LACKS_ONTOLOGY_TERM);
  }

  /** A biosample whose only content is one feature, itself without a type. */
  const BiosampleWithFeature := Biosample("", None, [PhenotypicFeature("", None, false, [])], None, None, None, None, None, [], [])

  /** BiosampleWithFeature is one such biosample. */
  lemma BiosampleWithFeatureShowsInversion()
    ensures CreateWarning(BIOSAMPLE_LACKS_PHENOTYPES) in AsWrittenBiosampleFindings(BiosampleWithFeature)
    ensures CreateError(PHENOTYPIC_FEATURE_LACKS_ONTOLOGY_TERM) in BiosampleFindings(BiosampleWithFeature)
  {
    var fs := BiosampleWithFeature.phenotypicFeatures;
    assert 0 <= 0 < |fs| && fs[0].featureType.None?;
    AsWrittenBiosampleInvertsPhenotypes(BiosampleWithFeature);
  }

  // ------------------------------------------------------- element lists

  predicate AllWellFormedBiosamples(bs: seq<Biosample>) {
    forall i :: 0 <= i < |bs| ==> WellFormedBiosample(bs[i])
  }

  predicate AllAsWrittenCleanBiosamples(bs: seq<Biosample>) {
    forall i :: 0 <= i < |bs| ==> AsWrittenCleanBiosample(bs[i])
  }

  predicate AllWellFormedGenes(gs: seq<Gene>) {
    forall i :: 0 <= i < |gs| ==> WellFormedGene(gs[i])
  }

  predicate AllWellFormedVariants(vs: seq<Variant>) {
    forall i :: 0 <= i < |vs| ==> WellFormedVariant(vs[i])
  }

  predicate AllWellFormedDiseases(ds: seq<Disease>) {
    forall i :: 0 <= i < |ds| ==> WellFormedDisease(ds[i])
  }

  predicate AllWellFormedHtsFiles(fs: seq<HtsFile>) {
    forall i :: 0 <= i < |fs| ==> WellFormedHtsFile(fs[i])
  }

  /** The findings of the biosamples: each biosample's in list order. */
  function BiosampleListFindings(bs: seq<Biosample>): (r: seq<Validation>)
    ensures CreateError(BIOSAMPLE_LACKS_ID) in r <==> SomeBiosampleLacksId(bs)
    ensures forall v :: v in r ==> BiosampleCause(v.cause)
    ensures r == [] <==> AllWellFormedBiosamples(bs)
  {
    AllFindingsMembers(bs, BiosampleFindings, CreateError(BIOSAMPLE_LACKS_ID));
    AllFindingsPart(bs, BiosampleFindings, BiosampleCause, WellFormedBiosample);
    AllFindings(bs, BiosampleFindings)
  }

  /** The same list with the biosample check as written: no feature finding ever appears. */
  function AsWrittenBiosampleListFindings(bs: seq<Biosample>): (r: seq<Validation>)
    ensures CreateError(BIOSAMPLE_LACKS_ID) in r <==> SomeBiosampleLacksId(bs)
    ensures forall v :: v in r ==> BiosampleOwnCause(v.cause)
    ensures r == [] <==> AllAsWrittenCleanBiosamples(bs)
  {
    AllFindingsMembers(bs, AsWrittenBiosampleFindings, CreateError(BIOSAMPLE_LACKS_ID));
    AllFindingsPart(bs, AsWrittenBiosampleFindings, BiosampleOwnCause, AsWrittenCleanBiosample);
    AllFindings(bs, AsWrittenBiosampleFindings)
  }

  /** Some feature has no type. */
  predicate SomeFeatureLacksTerm(fs: seq<PhenotypicFeature>) {
    exists i :: 0 <= i < |fs| && fs[i].featureType.None?
  }

  /** Some feature has no evidence. */
  predicate SomeFeatureLacksEvidence(fs: seq<PhenotypicFeature>) {
    exists i :: 0 <= i < |fs| && fs[i].evidence == []
  }

  /** Some evidence has no code. */
  predicate SomeEvidenceLacksCode(es: seq<Evidence>) {
    exists i :: 0 <= i < |es| && es[i].code.None?
  }

  /** Some HTS file has an empty sample map. */
  predicate SomeFileLacksSampleMap(fs: seq<HtsFile>) {
    exists i :: 0 <= i < |fs| && |fs[i].sampleMap| == 0
  }

  /** Some HTS file has no URI. */
  predicate SomeFileLacksUri(fs: seq<HtsFile>) {
    exists i :: 0 <= i < |fs| && fs[i].uri == ""
  }

  /** Some biosample has no id. */
  predicate SomeBiosampleLacksId(bs: seq<Biosample>) {
    exists i :: 0 <= i < |bs| && bs[i].id == ""
  }

  /** Some gene has no id. */
  predicate SomeGeneLacksId(gs: seq<Gene>) {
    exists i :: 0 <= i < |gs| && gs[i].id == ""
  }

  /** Some variant has neither an HGVS nor a VCF allele. */
  predicate SomeVariantLacksAllele(vs: seq<Variant>) {
    exists i :: 0 <= i < |vs| && vs[i].hgvs.None? && vs[i].vcf.None?
  }

  /** Some disease has no term. */
  predicate SomeDiseaseLacksTerm(ds: seq<Disease>) {
    exists i :: 0 <= i < |ds| && ds[i].term.None?
  }

  /** The findings of the genes: each gene's in list order. */
  function GeneListFindings(gs: seq<Gene>): (r: seq<Validation>)
    ensures CreateError(GENE_LACKS_ID) in r <==> SomeGeneLacksId(gs)
    ensures forall v :: v in r ==> GeneCause(v.cause)
    ensures r == [] <==> AllWellFormedGenes(gs)
  {
    AllFindingsMembers(gs, ValidateGene, CreateError(GENE_LACKS_ID));
    AllFindingsPart(gs, ValidateGene, GeneCause, WellFormedGene);
    AllFindings(gs, ValidateGene)
  }

  /** The findings of the variants: each variant's in list order. */
  function VariantListFindings(vs: seq<Variant>): (r: seq<Validation>)
    ensures CreateError(LACKS_ALLELE) in r <==> SomeVariantLacksAllele(vs)
    ensures forall v :: v in r ==> VariantCause(v.cause)
    ensures r == [] <==> AllWellFormedVariants(vs)
  {
    AllFindingsMembers(vs, ValidateVariant, CreateError(LACKS_ALLELE));
    AllFindingsPart(vs, ValidateVariant, VariantCause, WellFormedVariant);
    AllFindings(vs, ValidateVariant)
  }

  /** The findings of the diseases: each disease's in list order. */
  function DiseaseListFindings(ds: seq<Disease>): (r: seq<Validation>)
    ensures CreateError(DISEASE_LACKS_TERM) in r <==> SomeDiseaseLacksTerm(ds)
    ensures forall v :: v in r ==> DiseaseCause(v.cause)
    ensures r == [] <==> AllWellFormedDiseases(ds)
  {
    AllFindingsMembers(ds, ValidateDisease, CreateError(DISEASE_LACKS_TERM));
    AllFindingsPart(ds, ValidateDisease, DiseaseCause, WellFormedDisease);
    AllFindings(ds, ValidateDisease)
  }

  /** The findings of the HTS files: each file's in list order. */
  function HtsFileListFindings(fs: seq<HtsFile>): (r: seq<Validation>)
    ensures CreateError(HTSFILE_LACKS_URI) in r <==> SomeFileLacksUri(fs)
    ensures CreateWarning(LACKS_SAMPLE_MAP) in r <==> SomeFileLacksSampleMap(fs)
    ensures forall v :: v in r ==> HtsFileCause(v.cause)
    ensures r == [] <==> AllWellFormedHtsFiles(fs)
  {
    AllFindingsMembers(fs, ValidateHtsFile, CreateError(HTSFILE_LACKS_URI));
    AllFindingsMembers(fs, ValidateHtsFile, CreateWarning(LACKS_SAMPLE_MAP));
    AllFindingsPart(fs, ValidateHtsFile, HtsFileCause, WellFormedHtsFile);
    AllFindings(fs, ValidateHtsFile)
  }

  /** The loop over the biosamples, each validated and appended in turn. */
  method ValidateBiosampleList(bs: seq<Biosample>) returns (r: seq<Validation>)
    ensures r == BiosampleListFindings(bs)
  {
    r := [];
    for i := 0 to |bs|
      invariant r == AllFindings(bs[..i], BiosampleFindings)
    {
      var found := ValidateBiosample(bs[i]);
      var appended := AppendValidations(r, found);
      AppendedIsJoined(r, found, appended);
      AllFindingsStep(bs, BiosampleFindings, i);
      r := appended;
    }
    assert bs[..|bs|] == bs;
  }

  /** The same loop with the biosample check as written. */
  method AsWrittenValidateBiosampleList(bs: seq<Biosample>) returns (r: seq<Validation>)
    ensures r == AsWrittenBiosampleListFindings(bs)
  {
    r := [];
    for i := 0 to |bs|
      invariant r == AllFindings(bs[..i], AsWrittenBiosampleFindings)
    {
      var found := AsWrittenValidateBiosample(bs[i]);
      var appended := AppendValidations(r, found);
      AppendedIsJoined(r, found, appended);
      AllFindingsStep(bs, AsWrittenBiosampleFindings, i);
      r := appended;
    }
    assert bs[..|bs|] == bs;
  }

  /** The loop over the genes, each validated in turn. */
  method ValidateGeneList(gs: seq<Gene>) returns (r: seq<Validation>)
    ensures r == GeneListFindings(gs)
  {
    r := [];
    for i := 0 to |gs|
      invariant r == AllFindings(gs[..i], ValidateGene)
    {
      AllFindingsStep(gs, ValidateGene, i);
      r := r + ValidateGene(gs[i]);
    }
    assert gs[..|gs|] == gs;
  }

  /** The loop over the variants, each validated in turn. */
  method ValidateVariantList(vs: seq<Variant>) returns (r: seq<Validation>)
    ensures r == VariantListFindings(vs)
  {
    r := [];
    for i := 0 to |vs|
      invariant r == AllFindings(vs[..i], ValidateVariant)
    {
      AllFindingsStep(vs, ValidateVariant, i);
      r := r + ValidateVariant(vs[i]);
    }
    assert vs[..|vs|] == vs;
  }

  /** The loop over the diseases, each validated in turn. */
  method ValidateDiseaseList(ds: seq<Disease>) returns (r: seq<Validation>)
    ensures r == DiseaseListFindings(ds)
  {
    r := [];
    for i := 0 to |ds|
      invariant r == AllFindings(ds[..i], ValidateDisease)
    {
      AllFindingsStep(ds, ValidateDisease, i);
      r := r + ValidateDisease(ds[i]);
    }
    assert ds[..|ds|] == ds;
  }

  /** The loop over the HTS files, each validated and appended in turn. */
  method ValidateHtsFileList(fs: seq<HtsFile>) returns (r: seq<Validation>)
    ensures r == HtsFileListFindings(fs)
  {
    r := [];
    for i := 0 to |fs|
      invariant r == AllFindings(fs[..i], ValidateHtsFile)
    {
      var appended := AppendValidations(r, ValidateHtsFile(fs[i]));
      AppendedIsJoined(r, ValidateHtsFile(fs[i]), appended);
      AllFindingsStep(fs, ValidateHtsFile, i);
      r := appended;
    }
    assert fs[..|fs|] == fs;
  }

  // ---------------------------------------------------------- phenopacket

  /** A phenopacket: its id, its subject, its elements and its metadata. */
  datatype Phenopacket = Phenopacket(
    id: string,
    subject: Option<Individual>,
    phenotypicFeatures: seq<PhenotypicFeature>,
    biosamples: seq<Biosample>,
    genes: seq<Gene>,
    variants: seq<Variant>,
    diseases: seq<Disease>,
    htsFiles: seq<HtsFile>,
    metaData: Option<MetaData>)

  predicate WellFormedSubject(p: Phenopacket) {
    p.id != "" && p.subject.Some? && WellFormedIndividual(p.subject.value)
  }

  predicate WellFormedPhenotypes(p: Phenopacket) {
    p.phenotypicFeatures != [] && AllWellFormedFeatures(p.phenotypicFeatures) && AllWellFormedBiosamples(p.biosamples)
  }

  predicate WellFormedGenomics(p: Phenopacket) {
    AllWellFormedGenes(p.genes) && AllWellFormedVariants(p.variants) && AllWellFormedDiseases(p.diseases)
  }

  predicate WellFormedFiles(p: Phenopacket) {
    AllWellFormedHtsFiles(p.htsFiles) && p.metaData.Some? && WellFormedMetaData(p.metaData.value)
  }

  /** A phenopacket that every check passes. */
  predicate WellFormedPhenopacket(p: Phenopacket) {
    WellFormedSubject(p) && WellFormedPhenotypes(p) && WellFormedGenomics(p) && WellFormedFiles(p)
  }

  /** What Phenopacket::validate as written lets through silently. */
  predicate AsWrittenCleanPhenopacket(p: Phenopacket) {
    WellFormedSubject(p)
    && p.phenotypicFeatures != [] && AllAsWrittenCleanFeatures(p.phenotypicFeatures)
    && AllAsWrittenCleanBiosamples(p.biosamples)
    && WellFormedFiles(p)
  }

  /** The causes the gene, variant and disease checks report and no other element does. */
  predicate GenomicsOwnCause(c: ValidationCause) {
    c == GENE_LACKS_ID || c == GENE_LACKS_SYMBOL || c == ALLELE_LACKS_ID || c == ALLELE_LACKS_HGVS
    || c == LACKS_CHROMOSOME || c == LACKS_REF || c == LACKS_ALT || c == LACKS_ALLELE || c == LACKS_ZYGOSITY
    || c == DISEASE_LACKS_TERM
  }

  /** The causes the id and subject part of Phenopacket::validate reports. */
  predicate SubjectCause(c: ValidationCause) {
    IndividualCause(c) || c == PHENOPACKET_LACKS_ID || c == PHENOPACKET_LACKS_SUBJECT
  }

  /** The causes the feature and biosample part of Phenopacket::validate reports. */
  predicate PhenotypesCause(c: ValidationCause) {
    FeatureCause(c) || BiosampleOwnCause(c) || c == PHENOPACKET_LACKS_PHENOTYPIC_FEATURES
  }

  /** The causes the gene, variant and disease part of Phenopacket::validate reports. */
  predicate GenomicsCause(c: ValidationCause) {
    GeneCause(c) || VariantCause(c) || DiseaseCause(c)
  }

  /** The causes the HTS file and metadata part of Phenopacket::validate reports. */
  predicate FilesCause(c: ValidationCause) {
    HtsFileCause(c) || MetaDataCause(c) || c == PHENOPACKET_LACKS_METADATA
  }

  /** The id and subject part of Phenopacket::validate: an ERROR for a missing id, a WARNING for a missing subject, else the subject's findings. */
  function ValidatePhenopacketSubject(p: Phenopacket): (r: seq<Validation>)
    ensures CreateError(PHENOPACKET_LACKS_ID) in r <==> p.id == ""
    ensures CreateWarning(PHENOPACKET_LACKS_SUBJECT) in r <==> p.subject.None?
    ensures forall v :: v in r ==> SubjectCause(v.cause)
    ensures r == [] <==> WellFormedSubject(p)
  {
    var id := if p.id == "" then [CreateError(PHENOPACKET_LACKS_ID)] else [];
    var subject := if p.subject.None? then [CreateWarning(PHENOPACKET_LACKS_SUBJECT)] else ValidateIndividual(p.subject.value);
    SubjectParts(p, id, subject);
    id + subject
  }

  /** The id part and the subject part, in order, give the subject findings. */
  lemma SubjectParts(p: Phenopacket, id: seq<Validation>, subject: seq<Validation>)
    requires id == if p.id == "" then [CreateError(PHENOPACKET_LACKS_ID)] else []
    requires p.subject.None? ==> subject == [CreateWarning(PHENOPACKET_LACKS_SUBJECT)]
    requires p.subject.Some? ==> forall v :: v in subject ==> IndividualCause(v.cause)
    requires p.subject.Some? ==> (subject == [] <==> WellFormedIndividual(p.subject.value))
    ensures CreateError(PHENOPACKET_LACKS_ID) in id + subject <==> p.id == ""
    ensures CreateWarning(PHENOPACKET_LACKS_SUBJECT) in id + subject <==> p.subject.None?
    ensures forall v :: v in id + subject ==> SubjectCause(v.cause)
    ensures id + subject == [] <==> WellFormedSubject(p)
  {
  }

  /** The feature part of Phenopacket::validate as intended: a WARNING when there are none, else each feature's findings. */
  function ValidatePhenopacketFeatures(fs: seq<PhenotypicFeature>): (r: seq<Validation>)
    ensures CreateWarning(PHENOPACKET_LACKS_PHENOTYPIC_FEATURES) in r <==> fs == []
    ensures forall v :: v in r ==> FeatureCause(v.cause) || v == CreateWarning(PHENOPACKET_LACKS_PHENOTYPIC_FEATURES)
    ensures r == [] <==> fs != [] && AllWellFormedFeatures(fs)
  {
    if fs == [] then [CreateWarning(PHENOPACKET_LACKS_PHENOTYPIC_FEATURES)]
    else
      var r := FeatureListFindings(fs);
      FeaturesLackNoWarning(r);
      r
  }

  /** The feature part of Phenopacket::validate as written: features are checked as written. */
  function AsWrittenValidatePhenopacketFeatures(fs: seq<PhenotypicFeature>): (r: seq<Validation>)
    ensures CreateWarning(PHENOPACKET_LACKS_PHENOTYPIC_FEATURES) in r <==> fs == []
    ensures forall v :: v in r ==> AsWrittenFeatureCause(v.cause) || v == CreateWarning(PHENOPACKET_LACKS_PHENOTYPIC_FEATURES)
    ensures r == [] <==> fs != [] && AllAsWrittenCleanFeatures(fs)
  {
    if fs == [] then [CreateWarning(PHENOPACKET_LACKS_PHENOTYPIC_FEATURES)]
    else
      var r := AsWrittenFeatureListFindings(fs);
      AsWrittenFeaturesLackNoWarning(r);
      r
  }

  /** Findings of features never include a warning that there are none. */
  lemma FeaturesLackNoWarning(r: seq<Validation>)
    requires forall v :: v in r ==> FeatureCause(v.cause)
    ensures CreateWarning(PHENOPACKET_LACKS_PHENOTYPIC_FEATURES) !in r
    ensures CreateWarning(BIOSAMPLE_LACKS_PHENOTYPES) !in r
  {
  }

  /** The same for the feature check as written. */
  lemma AsWrittenFeaturesLackNoWarning(r: seq<Validation>)
    requires forall v :: v in r ==> AsWrittenFeatureCause(v.cause)
    ensures CreateWarning(PHENOPACKET_LACKS_PHENOTYPIC_FEATURES) !in r
  {
  }

  /** The causes the feature check as written can report: a feature's own, but never missing evidence. */
  predicate AsWrittenFeatureCause(c: ValidationCause) {
    FeatureCause(c) && c != PHENOTYPIC_FEATURE_LACKS_EVIDENCE
  }

  /** The feature and biosample part of Phenopacket::validate as intended. */
  function ValidatePhenopacketPhenotypes(p: Phenopacket): (r: seq<Validation>)
    ensures CreateWarning(PHENOPACKET_LACKS_PHENOTYPIC_FEATURES) in r <==> p.phenotypicFeatures == []
    ensures forall v :: v in r ==> PhenotypesCause(v.cause)
    ensures r == [] <==> WellFormedPhenotypes(p)
  {
    var features := ValidatePhenopacketFeatures(p.phenotypicFeatures);
    var samples := BiosampleListFindings(p.biosamples);
    PhenotypesParts(features, samples, p.phenotypicFeatures == [],
      p.phenotypicFeatures != [] && AllWellFormedFeatures(p.phenotypicFeatures), AllWellFormedBiosamples(p.biosamples));
    features + samples
  }

  /** The feature findings and the biosample findings, in order, give the phenotype findings. */
  lemma PhenotypesParts(features: seq<Validation>, samples: seq<Validation>, noFeatures: bool, featuresOk: bool, samplesOk: bool)
    requires CreateWarning(PHENOPACKET_LACKS_PHENOTYPIC_FEATURES) in features <==> noFeatures
    requires forall v :: v in features ==> FeatureCause(v.cause) || v == CreateWarning(PHENOPACKET_LACKS_PHENOTYPIC_FEATURES)
    requires features == [] <==> featuresOk
    requires forall v :: v in samples ==> BiosampleCause(v.cause)
    requires samples == [] <==> samplesOk
    ensures CreateWarning(PHENOPACKET_LACKS_PHENOTYPIC_FEATURES) in features + samples <==> noFeatures
    ensures forall v :: v in features + samples ==> PhenotypesCause(v.cause)
    ensures features + samples == [] <==> featuresOk && samplesOk
  {
    assert !BiosampleCause(PHENOPACKET_LACKS_PHENOTYPIC_FEATURES);
  }

  /** The feature and biosample part of Phenopacket::validate as written. */
  function AsWrittenValidatePhenopacketPhenotypes(p: Phenopacket): (r: seq<Validation>)
    ensures CreateWarning(PHENOPACKET_LACKS_PHENOTYPIC_FEATURES) in r <==> p.phenotypicFeatures == []
    ensures forall v :: v in r ==> PhenotypesCause(v.cause) && v.cause != PHENOTYPIC_FEATURE_LACKS_EVIDENCE
    ensures r == [] <==> p.phenotypicFeatures != [] && AllAsWrittenCleanFeatures(p.phenotypicFeatures) && AllAsWrittenCleanBiosamples(p.biosamples)
  {
    var features := AsWrittenValidatePhenopacketFeatures(p.phenotypicFeatures);
    var samples := AsWrittenBiosampleListFindings(p.biosamples);
    AsWrittenPhenotypesParts(features, samples, p.phenotypicFeatures == [],
      p.phenotypicFeatures != [] && AllAsWrittenCleanFeatures(p.phenotypicFeatures), AllAsWrittenCleanBiosamples(p.biosamples));
    features + samples
  }

  /** The feature findings and the biosample findings as written, in order, give the phenotype findings as written. */
  lemma AsWrittenPhenotypesParts(features: seq<Validation>, samples: seq<Validation>, noFeatures: bool, featuresOk: bool, samplesOk: bool)
    requires CreateWarning(PHENOPACKET_LACKS_PHENOTYPIC_FEATURES) in features <==> noFeatures
    requires forall v :: v in features ==> (FeatureCause(v.cause) && v.cause != PHENOTYPIC_FEATURE_LACKS_EVIDENCE) || v == CreateWarning(PHENOPACKET_LACKS_PHENOTYPIC_FEATURES)
    requires features == [] <==> featuresOk
    requires forall v :: v in samples ==> BiosampleOwnCause(v.cause)
    requires samples == [] <==> samplesOk
    ensures CreateWarning(PHENOPACKET_LACKS_PHENOTYPIC_FEATURES) in features + samples <==> noFeatures
    ensures forall v :: v in features + samples ==> PhenotypesCause(v.cause) && v.cause != PHENOTYPIC_FEATURE_LACKS_EVIDENCE
    ensures features + samples == [] <==> featuresOk && samplesOk
  {
    assert !BiosampleOwnCause(PHENOPACKET_LACKS_PHENOTYPIC_FEATURES) && !BiosampleOwnCause(PHENOTYPIC_FEATURE_LACKS_EVIDENCE);
  }

  /** The gene, variant and disease part of Phenopacket::validate as intended. */
  function ValidatePhenopacketGenomics(p: Phenopacket): (r: seq<Validation>)
    ensures CreateError(GENE_LACKS_ID) in r <==> SomeGeneLacksId(p.genes)
    ensures CreateError(LACKS_ALLELE) in r <==> SomeVariantLacksAllele(p.variants)
    ensures CreateError(DISEASE_LACKS_TERM) in r <==> SomeDiseaseLacksTerm(p.diseases)
    ensures forall v :: v in r ==> GenomicsCause(v.cause)
    ensures r == [] <==> WellFormedGenomics(p)
  {
    var genes := GeneListFindings(p.genes);
    var variants := VariantListFindings(p.variants);
    var diseases := DiseaseListFindings(p.diseases);
    GenomicsParts(genes, variants, diseases,
      SomeGeneLacksId(p.genes),
      SomeVariantLacksAllele(p.variants),
      SomeDiseaseLacksTerm(p.diseases),
      AllWellFormedGenes(p.genes), AllWellFormedVariants(p.variants), AllWellFormedDiseases(p.diseases));
    genes + variants + diseases
  }

  /** The gene, the variant and the disease findings, in order, give the genomic findings. */
  lemma GenomicsParts(genes: seq<Validation>, variants: seq<Validation>, diseases: seq<Validation>,
                      geneLacksId: bool, lacksAllele: bool, diseaseLacksTerm: bool, genesOk: bool, variantsOk: bool, diseasesOk: bool)
    requires CreateError(GENE_LACKS_ID) in genes <==> geneLacksId
    requires forall v :: v in genes ==> GeneCause(v.cause)
    requires genes == [] <==> genesOk
    requires CreateError(LACKS_ALLELE) in variants <==> lacksAllele
    requires forall v :: v in variants ==> VariantCause(v.cause)
    requires variants == [] <==> variantsOk
    requires CreateError(DISEASE_LACKS_TERM) in diseases <==> diseaseLacksTerm
    requires forall v :: v in diseases ==> DiseaseCause(v.cause)
    requires diseases == [] <==> diseasesOk
    ensures CreateError(GENE_LACKS_ID) in genes + variants + diseases <==> geneLacksId
    ensures CreateError(LACKS_ALLELE) in genes + variants + diseases <==> lacksAllele
    ensures CreateError(DISEASE_LACKS_TERM) in genes + variants + diseases <==> diseaseLacksTerm
    ensures forall v :: v in genes + variants + diseases ==> GenomicsCause(v.cause)
    ensures genes + variants + diseases == [] <==> genesOk && variantsOk && diseasesOk
  {
    assert !GeneCause(LACKS_ALLELE) && !DiseaseCause(LACKS_ALLELE);
    assert !GeneCause(DISEASE_LACKS_TERM) && !VariantCause(DISEASE_LACKS_TERM);
    assert !VariantCause(GENE_LACKS_ID) && !DiseaseCause(GENE_LACKS_ID);
  }

  /** The metadata part of Phenopacket::validate: an ERROR when it is missing, else its findings. */
  function ValidatePhenopacketMetaData(md: Option<MetaData>): (r: seq<Validation>)
    ensures CreateError(PHENOPACKET_LACKS_METADATA) in r <==> md.None?
    ensures forall v :: v in r ==> MetaDataCause(v.cause) || v == CreateError(PHENOPACKET_LACKS_METADATA)
    ensures r == [] <==> md.Some? && WellFormedMetaData(md.value)
  {
    if md.None? then [CreateError(PHENOPACKET_LACKS_METADATA)] else ValidateMetaData(md.value)
  }

  /** The HTS file and metadata part of Phenopacket::validate. */
  function ValidatePhenopacketFiles(p: Phenopacket): (r: seq<Validation>)
    ensures CreateError(PHENOPACKET_LACKS_METADATA) in r <==> p.metaData.None?
    ensures CreateError(HTSFILE_LACKS_URI) in r <==> SomeFileLacksUri(p.htsFiles)
    ensures CreateWarning(LACKS_SAMPLE_MAP) in r <==> SomeFileLacksSampleMap(p.htsFiles)
    ensures forall v :: v in r ==> FilesCause(v.cause)
    ensures r == [] <==> WellFormedFiles(p)
  {
    var files := HtsFileListFindings(p.htsFiles);
    var metadata := ValidatePhenopacketMetaData(p.metaData);
    FilesParts(files, metadata, p.metaData.None?,
      SomeFileLacksUri(p.htsFiles),
      SomeFileLacksSampleMap(p.htsFiles),
      AllWellFormedHtsFiles(p.htsFiles), p.metaData.Some? && WellFormedMetaData(p.metaData.value));
    files + metadata
  }

  /** The HTS file findings and the metadata findings, in order, give the file findings. */
  lemma FilesParts(files: seq<Validation>, metadata: seq<Validation>,
                   noMetaData: bool, lacksUri: bool, lacksSampleMap: bool, filesOk: bool, metaDataOk: bool)
    requires CreateError(HTSFILE_LACKS_URI) in files <==> lacksUri
    requires CreateWarning(LACKS_SAMPLE_MAP) in files <==> lacksSampleMap
    requires forall v :: v in files ==> HtsFileCause(v.cause)
    requires files == [] <==> filesOk
    requires CreateError(PHENOPACKET_LACKS_METADATA) in metadata <==> noMetaData
    requires forall v :: v in metadata ==> MetaDataCause(v.cause) || v == CreateError(PHENOPACKET_LACKS_METADATA)
    requires metadata == [] <==> metaDataOk
    ensures CreateError(PHENOPACKET_LACKS_METADATA) in files + metadata <==> noMetaData
    ensures CreateError(HTSFILE_LACKS_URI) in files + metadata <==> lacksUri
    ensures CreateWarning(LACKS_SAMPLE_MAP) in files + metadata <==> lacksSampleMap
    ensures forall v :: v in files + metadata ==> FilesCause(v.cause)
    ensures files + metadata == [] <==> filesOk && metaDataOk
  {
  }

  /**
   * Phenopacket::validate as intended: the id and the subject, the
   * features, the biosamples, the genes, the variants, the diseases, the
   * HTS files and the metadata, each reporting its findings in that order.
   */
  function PhenopacketFindings(p: Phenopacket): (r: seq<Validation>)
    ensures CreateError(PHENOPACKET_LACKS_ID) in r <==> p.id == ""
    ensures CreateWarning(PHENOPACKET_LACKS_SUBJECT) in r <==> p.subject.None?
    ensures CreateWarning(PHENOPACKET_LACKS_PHENOTYPIC_FEATURES) in r <==> p.phenotypicFeatures == []
    ensures CreateError(GENE_LACKS_ID) in r <==> SomeGeneLacksId(p.genes)
    ensures CreateError(LACKS_ALLELE) in r <==> SomeVariantLacksAllele(p.variants)
    ensures CreateError(DISEASE_LACKS_TERM) in r <==> SomeDiseaseLacksTerm(p.diseases)
    ensures CreateError(PHENOPACKET_LACKS_METADATA) in r <==> p.metaData.None?
    ensures r == [] <==> WellFormedPhenopacket(p)
  {
    var subject := ValidatePhenopacketSubject(p);
    var phenotypes := ValidatePhenopacketPhenotypes(p);
    var genomics := ValidatePhenopacketGenomics(p);
    var files := ValidatePhenopacketFiles(p);
    PhenopacketParts(subject, phenotypes, genomics, files);
    subject + phenotypes + genomics + files
  }

  /** Which of the four parts of Phenopacket::validate can report each of the phenopacket's own findings and the first finding of each genomic element. */
  lemma PartsReportDistinctCauses()
    ensures !PhenotypesCause(PHENOPACKET_LACKS_ID) && !GenomicsCause(PHENOPACKET_LACKS_ID) && !FilesCause(PHENOPACKET_LACKS_ID)
    ensures !PhenotypesCause(PHENOPACKET_LACKS_SUBJECT) && !GenomicsCause(PHENOPACKET_LACKS_SUBJECT) && !FilesCause(PHENOPACKET_LACKS_SUBJECT)
    ensures !SubjectCause(PHENOPACKET_LACKS_PHENOTYPIC_FEATURES) && !GenomicsCause(PHENOPACKET_LACKS_PHENOTYPIC_FEATURES) && !FilesCause(PHENOPACKET_LACKS_PHENOTYPIC_FEATURES)
    ensures !SubjectCause(GENE_LACKS_ID) && !PhenotypesCause(GENE_LACKS_ID) && !FilesCause(GENE_LACKS_ID)
    ensures !SubjectCause(LACKS_ALLELE) && !PhenotypesCause(LACKS_ALLELE) && !FilesCause(LACKS_ALLELE)
    ensures !SubjectCause(DISEASE_LACKS_TERM) && !PhenotypesCause(DISEASE_LACKS_TERM) && !FilesCause(DISEASE_LACKS_TERM)
    ensures !SubjectCause(PHENOPACKET_LACKS_METADATA) && !PhenotypesCause(PHENOPACKET_LACKS_METADATA) && !GenomicsCause(PHENOPACKET_LACKS_METADATA)
    ensures !SubjectCause(HTSFILE_LACKS_URI) && !PhenotypesCause(HTSFILE_LACKS_URI)
    ensures !SubjectCause(LACKS_SAMPLE_MAP) && !PhenotypesCause(LACKS_SAMPLE_MAP)
    ensures !SubjectCause(PHENOTYPIC_FEATURE_LACKS_EVIDENCE) && !FilesCause(PHENOTYPIC_FEATURE_LACKS_EVIDENCE)
  {
    DistinctId();
    DistinctSubject();
    DistinctFeatures();
    DistinctGeneId();
    DistinctAllele();
    DistinctDiseaseTerm();
    DistinctMetaData();
    DistinctUri();
    DistinctSampleMap();
    DistinctEvidence();
  }

  lemma DistinctId()
    ensures !PhenotypesCause(PHENOPACKET_LACKS_ID) && !GenomicsCause(PHENOPACKET_LACKS_ID) && !FilesCause(PHENOPACKET_LACKS_ID)
  {
  }

  lemma DistinctSubject()
    ensures !PhenotypesCause(PHENOPACKET_LACKS_SUBJECT) && !GenomicsCause(PHENOPACKET_LACKS_SUBJECT) && !FilesCause(PHENOPACKET_LACKS_SUBJECT)
  {
  }

  lemma DistinctFeatures()
    ensures !SubjectCause(PHENOPACKET_LACKS_PHENOTYPIC_FEATURES) && !GenomicsCause(PHENOPACKET_LACKS_PHENOTYPIC_FEATURES) && !FilesCause(PHENOPACKET_LACKS_PHENOTYPIC_FEATURES)
  {
  }

  lemma DistinctGeneId()
    ensures !SubjectCause(GENE_LACKS_ID) && !PhenotypesCause(GENE_LACKS_ID) && !FilesCause(GENE_LACKS_ID)
  {
  }

  lemma DistinctAllele()
    ensures !SubjectCause(LACKS_ALLELE) && !PhenotypesCause(LACKS_ALLELE) && !FilesCause(LACKS_ALLELE)
  {
  }

  lemma DistinctDiseaseTerm()
    ensures !SubjectCause(DISEASE_LACKS_TERM) && !PhenotypesCause(DISEASE_LACKS_TERM) && !FilesCause(DISEASE_LACKS_TERM)
  {
  }

  lemma DistinctMetaData()
    ensures !SubjectCause(PHENOPACKET_LACKS_METADATA) && !PhenotypesCause(PHENOPACKET_LACKS_METADATA) && !GenomicsCause(PHENOPACKET_LACKS_METADATA)
  {
  }

  lemma DistinctUri()
    ensures !SubjectCause(HTSFILE_LACKS_URI) && !PhenotypesCause(HTSFILE_LACKS_URI)
  {
  }

  lemma DistinctSampleMap()
    ensures !SubjectCause(LACKS_SAMPLE_MAP) && !PhenotypesCause(LACKS_SAMPLE_MAP)
  {
  }

  lemma DistinctEvidence()
    ensures !SubjectCause(PHENOTYPIC_FEATURE_LACKS_EVIDENCE) && !FilesCause(PHENOTYPIC_FEATURE_LACKS_EVIDENCE)
  {
  }

  /** A finding whose cause a part cannot report is not among that part's findings. */
  lemma NotReported(r: seq<Validation>, part: ValidationCause -> bool, w: Validation)
    requires forall v :: v in r ==> part(v.cause)
    requires !part(w.cause)
    ensures w !in r
  {
  }

  /** The four parts of Phenopacket::validate, in order, give its findings. */
  lemma PhenopacketParts(subject: seq<Validation>, phenotypes: seq<Validation>, genomics: seq<Validation>, files: seq<Validation>)
    requires forall v :: v in subject ==> SubjectCause(v.cause)
    requires forall v :: v in phenotypes ==> PhenotypesCause(v.cause)
    requires forall v :: v in genomics ==> GenomicsCause(v.cause)
    requires forall v :: v in files ==> FilesCause(v.cause)
    ensures CreateError(PHENOPACKET_LACKS_ID) in subject + phenotypes + genomics + files <==> CreateError(PHENOPACKET_LACKS_ID) in subject
    ensures CreateWarning(PHENOPACKET_LACKS_SUBJECT) in subject + phenotypes + genomics + files <==> CreateWarning(PHENOPACKET_LACKS_SUBJECT) in subject
    ensures CreateWarning(PHENOPACKET_LACKS_PHENOTYPIC_FEATURES) in subject + phenotypes + genomics + files <==> CreateWarning(PHENOPACKET_LACKS_PHENOTYPIC_FEATURES) in phenotypes
    ensures CreateError(GENE_LACKS_ID) in subject + phenotypes + genomics + files <==> CreateError(GENE_LACKS_ID) in genomics
    ensures CreateError(LACKS_ALLELE) in subject + phenotypes + genomics + files <==> CreateError(LACKS_ALLELE) in genomics
    ensures CreateError(DISEASE_LACKS_TERM) in subject + phenotypes + genomics + files <==> CreateError(DISEASE_LACKS_TERM) in genomics
    ensures CreateError(PHENOPACKET_LACKS_METADATA) in subject + phenotypes + genomics + files <==> CreateError(PHENOPACKET_LACKS_METADATA) in files
  {
    PartsReportDistinctCauses();
    NotReported(phenotypes, PhenotypesCause, CreateError(PHENOPACKET_LACKS_ID));
    NotReported(genomics, GenomicsCause, CreateError(PHENOPACKET_LACKS_ID));
    NotReported(files, FilesCause, CreateError(PHENOPACKET_LACKS_ID));
    NotReported(phenotypes, PhenotypesCause, CreateWarning(PHENOPACKET_LACKS_SUBJECT));
    NotReported(genomics, GenomicsCause, CreateWarning(PHENOPACKET_LACKS_SUBJECT));
    NotReported(files, FilesCause, CreateWarning(PHENOPACKET_LACKS_SUBJECT));
    NotReported(subject, SubjectCause, CreateWarning(PHENOPACKET_LACKS_PHENOTYPIC_FEATURES));
    NotReported(genomics, GenomicsCause, CreateWarning(PHENOPACKET_LACKS_PHENOTYPIC_FEATURES));
    NotReported(files, FilesCause, CreateWarning(PHENOPACKET_LACKS_PHENOTYPIC_FEATURES));
    NotReported(subject, SubjectCause, CreateError(GENE_LACKS_ID));
    NotReported(phenotypes, PhenotypesCause, CreateError(GENE_LACKS_ID));
    NotReported(files, FilesCause, CreateError(GENE_LACKS_ID));
    NotReported(subject, SubjectCause, CreateError(LACKS_ALLELE));
    NotReported(phenotypes, PhenotypesCause, CreateError(LACKS_ALLELE));
    NotReported(files, FilesCause, CreateError(LACKS_ALLELE));
    NotReported(subject, SubjectCause, CreateError(DISEASE_LACKS_TERM));
    NotReported(phenotypes, PhenotypesCause, CreateError(DISEASE_LACKS_TERM));
    NotReported(files, FilesCause, CreateError(DISEASE_LACKS_TERM));
    NotReported(subject, SubjectCause, CreateError(PHENOPACKET_LACKS_METADATA));
    NotReported(phenotypes, PhenotypesCause, CreateError(PHENOPACKET_LACKS_METADATA));
    NotReported(genomics, GenomicsCause, CreateError(PHENOPACKET_LACKS_METADATA));
  }

  /**
   * Phenopacket::validate as written: the gene, variant and disease
   * overloads that append to the caller's list have empty bodies, so none
   * of their findings is ever reported; features and biosamples are
   * checked as written.
   */
  function AsWrittenPhenopacketFindings(p: Phenopacket): (r: seq<Validation>)
    ensures CreateError(PHENOPACKET_LACKS_ID) in r <==> p.id == ""
    ensures CreateWarning(PHENOPACKET_LACKS_SUBJECT) in r <==> p.subject.None?
    ensures CreateWarning(PHENOPACKET_LACKS_PHENOTYPIC_FEATURES) in r <==> p.phenotypicFeatures == []
    ensures CreateError(PHENOPACKET_LACKS_METADATA) in r <==> p.metaData.None?
    ensures CreateError(HTSFILE_LACKS_URI) in r <==> SomeFileLacksUri(p.htsFiles)
    ensures CreateWarning(LACKS_SAMPLE_MAP) in r <==> SomeFileLacksSampleMap(p.htsFiles)
    ensures forall v :: v in r ==> !GenomicsOwnCause(v.cause) && v.cause != PHENOTYPIC_FEATURE_LACKS_EVIDENCE
    ensures r == [] <==> AsWrittenCleanPhenopacket(p)
  {
    var subject := ValidatePhenopacketSubject(p);
    var phenotypes := AsWrittenValidatePhenopacketPhenotypes(p);
    var files := ValidatePhenopacketFiles(p);
    AsWrittenPhenopacketParts(subject, phenotypes, files);
    subject + phenotypes + files
  }

  /** No cause of the subject part is one only genes, variants and diseases report. */
  lemma SubjectCauseNotGenomic(c: ValidationCause)
    requires SubjectCause(c)
    ensures !GenomicsOwnCause(c) && c != PHENOTYPIC_FEATURE_LACKS_EVIDENCE
  {
  }

  /** No cause of the phenotype part is one only genes, variants and diseases report. */
  lemma PhenotypesCauseNotGenomic(c: ValidationCause)
    requires PhenotypesCause(c)
    ensures !GenomicsOwnCause(c)
  {
  }

  /** No cause of the file part is one only genes, variants and diseases report. */
  lemma FilesCauseNotGenomic(c: ValidationCause)
    requires FilesCause(c)
    ensures !GenomicsOwnCause(c) && c != PHENOTYPIC_FEATURE_LACKS_EVIDENCE
  {
  }

  /** The three parts Phenopacket::validate as written reports, in order, give its findings. */
  lemma AsWrittenPhenopacketParts(subject: seq<Validation>, phenotypes: seq<Validation>, files: seq<Validation>)
    requires forall v :: v in subject ==> SubjectCause(v.cause)
    requires forall v :: v in phenotypes ==> PhenotypesCause(v.cause) && v.cause != PHENOTYPIC_FEATURE_LACKS_EVIDENCE
    requires forall v :: v in files ==> FilesCause(v.cause)
    ensures CreateError(PHENOPACKET_LACKS_ID) in subject + phenotypes + files <==> CreateError(PHENOPACKET_LACKS_ID) in subject
    ensures CreateWarning(PHENOPACKET_LACKS_SUBJECT) in subject + phenotypes + files <==> CreateWarning(PHENOPACKET_LACKS_SUBJECT) in subject
    ensures CreateWarning(PHENOPACKET_LACKS_PHENOTYPIC_FEATURES) in subject + phenotypes + files <==> CreateWarning(PHENOPACKET_LACKS_PHENOTYPIC_FEATURES) in phenotypes
    ensures CreateError(PHENOPACKET_LACKS_METADATA) in subject + phenotypes + files <==> CreateError(PHENOPACKET_LACKS_METADATA) in files
    ensures CreateError(HTSFILE_LACKS_URI) in subject + phenotypes + files <==> CreateError(HTSFILE_LACKS_URI) in files
    ensures CreateWarning(LACKS_SAMPLE_MAP) in subject + phenotypes + files <==> CreateWarning(LACKS_SAMPLE_MAP) in files
    ensures forall v :: v in subject + phenotypes + files ==> !GenomicsOwnCause(v.cause) && v.cause != PHENOTYPIC_FEATURE_LACKS_EVIDENCE
  {
    PartsReportDistinctCauses();
    NotReported(subject, SubjectCause, CreateWarning(PHENOPACKET_LACKS_PHENOTYPIC_FEATURES));
    NotReported(subject, SubjectCause, CreateError(PHENOPACKET_LACKS_METADATA));
    NotReported(subject, SubjectCause, CreateError(HTSFILE_LACKS_URI));
    NotReported(subject, SubjectCause, CreateWarning(LACKS_SAMPLE_MAP));
    NotReported(phenotypes, PhenotypesCause, CreateError(PHENOPACKET_LACKS_ID));
    NotReported(phenotypes, PhenotypesCause, CreateWarning(PHENOPACKET_LACKS_SUBJECT));
    NotReported(phenotypes, PhenotypesCause, CreateError(PHENOPACKET_LACKS_METADATA));
    NotReported(phenotypes, PhenotypesCause, CreateError(HTSFILE_LACKS_URI));
    NotReported(phenotypes, PhenotypesCause, CreateWarning(LACKS_SAMPLE_MAP));
    NotReported(files, FilesCause, CreateError(PHENOPACKET_LACKS_ID));
    NotReported(files, FilesCause, CreateWarning(PHENOPACKET_LACKS_SUBJECT));
    NotReported(files, FilesCause, CreateWarning(PHENOPACKET_LACKS_PHENOTYPIC_FEATURES));
    forall v | v in subject + phenotypes + files
      ensures !GenomicsOwnCause(v.cause) && v.cause != PHENOTYPIC_FEATURE_LACKS_EVIDENCE
    {
      if v in subject {
        SubjectCauseNotGenomic(v.cause);
      } else if v in phenotypes {
        PhenotypesCauseNotGenomic(v.cause);
      } else {
        FilesCauseNotGenomic(v.cause);
      }
    }
  }

  /** Phenopacket::validate as intended, with its loops over the elements. */
  method ValidatePhenopacket(p: Phenopacket) returns (r: seq<Validation>)
    ensures r == PhenopacketFindings(p)
  {
    var subject := ValidatePhenopacketSubject(p);
    var features;
    if p.phenotypicFeatures == [] {
      features := [CreateWarning(PHENOPACKET_LACKS_PHENOTYPIC_FEATURES)];
    } else {
      features := ValidateFeatureList(p.phenotypicFeatures);
    }
    var samples := ValidateBiosampleList(p.biosamples);
    var genes := ValidateGeneList(p.genes);
    var variants := ValidateVariantList(p.variants);
    var diseases := ValidateDiseaseList(p.diseases);
    var files := ValidateHtsFileList(p.htsFiles);
    var metadata := ValidatePhenopacketMetaData(p.metaData);
    assert features + samples == ValidatePhenopacketPhenotypes(p);
    assert genes + variants + diseases == ValidatePhenopacketGenomics(p);
    assert files + metadata == ValidatePhenopacketFiles(p);
    r := subject + (features + samples) + (genes + variants + diseases) + (files + metadata);
  }

  /**
   * Phenopacket::validate as written, with its loops: the loops over the
   * genes, the variants and the diseases hand each element to an overload
   * that appends nothing, so they are left out.
   */
  method AsWrittenValidatePhenopacket(p: Phenopacket) returns (r: seq<Validation>)
    ensures r == AsWrittenPhenopacketFindings(p)
  {
    var subject := ValidatePhenopacketSubject(p);
    var features;
    if p.phenotypicFeatures == [] {
      features := [CreateWarning(PHENOPACKET_LACKS_PHENOTYPIC_FEATURES)];
    } else {
      features := AsWrittenValidateFeatureList(p.phenotypicFeatures);
    }
    var samples := AsWrittenValidateBiosampleList(p.biosamples);
    var files := ValidateHtsFileList(p.htsFiles);
    var metadata := ValidatePhenopacketMetaData(p.metaData);
    assert features + samples == AsWrittenValidatePhenopacketPhenotypes(p);
    assert files + metadata == ValidatePhenopacketFiles(p);
    r := subject + (features + samples) + (files + metadata);
  }

  /** For every phenopacket with a gene that has no id, the as-written check is silent about it and the intended one reports it. */
  lemma AsWrittenPhenopacketSkipsGenes(p: Phenopacket)
    requires SomeGeneLacksId(p.genes)
    ensures CreateError(GENE_LACKS_ID) !in AsWrittenPhenopacketFindings(p)
    ensures CreateError(GENE_LACKS_ID) in PhenopacketFindings(p)
  {
    assert GenomicsOwnCause(GENE_LACKS_ID);
  }

  // ------------------------------------------------- the stored phenopacket

  /** The copy constructor of HtsFile: only the format and the genome assembly are copied. */
  function HtsFileCopy(f: HtsFile): (c: HtsFile)
    ensures c.uri == "" && c.description == "" && |c.sampleMap| == 0
    ensures c.format == f.format && c.genomeAssembly == f.genomeAssembly
  {
    HtsFile("", "", f.format, f.genomeAssembly, map[])
  }

  /**
   * The copy constructor of Disease: the term and the onset are copied,
   * except that a class of onset (the onset used when there is no age and
   * no age range) is copied into the term, so a copy never holds one.
   */
  function DiseaseCopy(d: Disease): (c: Disease)
    ensures c.classOfOnset.None?
  {
    if d.ageOfOnset.Some? then Disease(d.term, d.ageOfOnset, None, None)
    else if d.ageRangeOfOnset.Some? then Disease(d.term, None, d.ageRangeOfOnset, None)
    else if d.classOfOnset.Some? then Disease(d.classOfOnset, None, None, None)
    else Disease(d.term, None, None, None)
  }

  /** The copy constructor of Variant: the HGVS allele, else the VCF allele, and the zygosity. */
  function VariantCopy(vr: Variant): (c: Variant)
    ensures c.hgvs == vr.hgvs && c.zygosity == vr.zygosity
    ensures c.vcf == if vr.hgvs.Some? then None else vr.vcf
  {
    Variant(vr.hgvs, if vr.hgvs.Some? then None else vr.vcf, vr.zygosity)
  }

  /**
   * The phenopacket the Phenopacket constructor builds from the message it
   * reads: the biosamples are not stored (only a warning is printed), the
   * genes, features and metadata are kept as they are, and the variants,
   * diseases and HTS files are kept as their copies.
   */
  function StoredPhenopacket(p: Phenopacket): (s: Phenopacket)
    ensures s.biosamples == []
    ensures s.id == p.id && s.subject == p.subject && s.phenotypicFeatures == p.phenotypicFeatures
    ensures s.genes == p.genes && s.metaData == p.metaData
    ensures |s.variants| == |p.variants| && |s.diseases| == |p.diseases| && |s.htsFiles| == |p.htsFiles|
  {
    Phenopacket(p.id, p.subject, p.phenotypicFeatures, [], p.genes,
      seq(|p.variants|, i requires 0 <= i < |p.variants| => VariantCopy(p.variants[i])),
      seq(|p.diseases|, i requires 0 <= i < |p.diseases| => DiseaseCopy(p.diseases[i])),
      seq(|p.htsFiles|, i requires 0 <= i < |p.htsFiles| => HtsFileCopy(p.htsFiles[i])),
      p.metaData)
  }

  /**
   * Every HTS file of a stored phenopacket has lost its URI and its sample
   * map, so the check as written reports both for every phenopacket that
   * has HTS files, whatever they held.
   */
  lemma StoredHtsFilesLackUri(p: Phenopacket)
    ensures CreateError(HTSFILE_LACKS_URI) in AsWrittenPhenopacketFindings(StoredPhenopacket(p)) <==> p.htsFiles != []
    ensures CreateWarning(LACKS_SAMPLE_MAP) in AsWrittenPhenopacketFindings(StoredPhenopacket(p)) <==> p.htsFiles != []
  {
    var s := StoredPhenopacket(p);
    if p.htsFiles != [] {
      assert s.htsFiles[0] == HtsFileCopy(p.htsFiles[0]);
      assert 0 <= 0 < |s.htsFiles| && s.htsFiles[0].uri == "";
      assert 0 <= 0 < |s.htsFiles| && |s.htsFiles[0].sampleMap| == 0;
    }
  }

  /**
   * What a phenopacket read and checked as written must be for nothing to
   * be reported: a well-formed subject, at least one feature with a
   * well-formed type and well-formed evidence, no HTS file at all and
   * well-formed metadata. The biosamples, genes, variants and diseases
   * play no part.
   */
  lemma StoredPhenopacketClean(p: Phenopacket)
    ensures AsWrittenPhenopacketFindings(StoredPhenopacket(p)) == [] <==>
      WellFormedSubject(p) && p.phenotypicFeatures != [] && AllAsWrittenCleanFeatures(p.phenotypicFeatures)
      && p.htsFiles == [] && p.metaData.Some? && WellFormedMetaData(p.metaData.value)
  {
    var s := StoredPhenopacket(p);
    StoredHtsFilesLackUri(p);
    if p.htsFiles == [] {
      assert s.htsFiles == [];
    }
  }
}
