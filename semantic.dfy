/**
 * The semantic checks of a phenopacket (lib/phenotools.cc): the ontology
 * prefixes it uses against the prefixes its metadata declares, features
 * whose term the ontology does not know, and pairs of observed features
 * one of which is a subclass of the other.
 *
 * A std::set<string> is modelled by the values inserted into it; it is
 * iterated as SetOf of them, in sorted order and without repeats.
 */
module Semantic {
  import opened Wrappers
  import opened Strings
  import opened TermIds
  import opened Edges
  import opened Graph
  import opened Phenotools
  import O = Ontology

  /** A list of findings after the given ones, unless the second part failed. */
  function Then<T>(a: seq<T>, r: Result<seq<T>>): Result<seq<T>> {
    match r
    case Err(e) => Err(e)
    case Ok(b) => Ok(a + b)
  }

  /** Two steps in sequence: the first one's failure, or both lists joined. */
  function AndThen<T>(a: Result<seq<T>>, b: Result<seq<T>>): Result<seq<T>> {
    match a
    case Err(e) => Err(e)
    case Ok(x) => Then(x, b)
  }

  /** Findings prepended in two steps are the findings prepended at once; a step in between regroups the same way. */
  lemma ThenAssociates<T>(x: seq<T>, y: seq<T>, a: Result<seq<T>>, b: Result<seq<T>>)
    ensures Then(x, Then(y, a)) == Then(x + y, a)
    ensures AndThen(Then(x, a), b) == Then(x, AndThen(a, b))
    ensures Then([], a) == a
  {
    if a.Ok? {
      assert x + (y + a.value) == (x + y) + a.value;
      assert [] + a.value == a.value;
      if b.Ok? {
        assert (x + a.value) + b.value == x + (a.value + b.value);
      }
    }
  }

  /** Two steps find nothing exactly when neither fails and neither finds anything. */
  lemma AndThenEmpty<T>(a: Result<seq<T>>, b: Result<seq<T>>)
    ensures AndThen(a, b) == Ok([]) <==> a == Ok([]) && b == Ok([])
  {
    if a.Ok? && b.Ok? && AndThen(a, b) == Ok([]) {
      assert |a.value + b.value| == 0;
    }
  }

  // ------------------------------------------------- comparing prefix sets

  /** The values of xs that ys does not hold, in the order of xs. */
  function Absent(xs: seq<string>, ys: seq<string>): (r: seq<string>)
    ensures forall x :: x in r <==> x in xs && x !in ys
    ensures |r| <= |xs|
  {
    if |xs| == 0 then []
    else
      assert xs == xs[..|xs| - 1] + [xs[|xs| - 1]];
      Absent(xs[..|xs| - 1], ys) + (if xs[|xs| - 1] in ys then [] else [xs[|xs| - 1]])
  }

  /** One finding per name, in the order of the names. */
  function Findings(names: seq<string>, finding: string -> Validation): (r: seq<Validation>)
    ensures |r| == |names| && forall k :: 0 <= k < |names| ==> r[k] == finding(names[k])
  {
    seq(|names|, k requires 0 <= k < |names| => finding(names[k]))
  }

  /**
   * The two passes over a pair of prefix sets: a finding for each used
   * prefix that is not declared, then one for each declared prefix that
   * is not used. There is none exactly when both hold the same prefixes.
   */
  function PrefixReport(used: seq<string>, declared: seq<string>,
                        undeclared: string -> Validation, unused: string -> Validation): (r: seq<Validation>)
    ensures |r| == |Absent(used, declared)| + |Absent(declared, used)|
    ensures r == [] <==> forall x :: x in used <==> x in declared
  {
    var a := Absent(used, declared);
    var b := Absent(declared, used);
    assert a != [] ==> a[0] in a;
    assert b != [] ==> b[0] in b;
    Findings(a, undeclared) + Findings(b, unused)
  }

  /** Each finding of the report names one prefix of the difference: undeclared for a used one, unused for a declared one. */
  lemma PrefixReportFindings(used: seq<string>, declared: seq<string>,
                             undeclared: string -> Validation, unused: string -> Validation)
    ensures forall v :: v in PrefixReport(used, declared, undeclared, unused) ==>
      (exists x :: x in used && x !in declared && v == undeclared(x))
      || (exists x :: x !in used && x in declared && v == unused(x))
  {
    var a := Absent(used, declared);
    var b := Absent(declared, used);
    var fa := Findings(a, undeclared);
    var fb := Findings(b, unused);
    assert PrefixReport(used, declared, undeclared, unused) == fa + fb;
    forall v | v in fa + fb
      ensures (exists x :: x in used && x !in declared && v == undeclared(x))
        || (exists x :: x !in used && x in declared && v == unused(x))
    {
      if v in fa {
        var k :| 0 <= k < |fa| && fa[k] == v;
        assert a[k] in a;
      } else {
        var k :| 0 <= k < |fb| && fb[k] == v;
        assert b[k] in b;
      }
    }
  }

  /** One pass of a prefix comparison: a finding for each value of xs that ys lacks, appended in the order of xs. */
  method ReportAbsent(xs: seq<string>, ys: seq<string>, finding: string -> Validation, val: seq<Validation>)
    returns (r: seq<Validation>)
    ensures r == val + Findings(Absent(xs, ys), finding)
  {
    var found := [];
    var i := 0;
    while i < |xs|
      invariant 0 <= i <= |xs|
      invariant found == Findings(Absent(xs[..i], ys), finding)
    {
      AbsentStep(xs, i, ys, finding);
      if xs[i] !in ys {
        found := found + [finding(xs[i])];
      }
      i := i + 1;
    }
    assert xs[..i] == xs;
    r := val + found;
  }

  /** One more value of xs adds its finding exactly when ys lacks it. */
  lemma AbsentStep(xs: seq<string>, i: nat, ys: seq<string>, finding: string -> Validation)
    requires i < |xs|
    ensures Findings(Absent(xs[..i + 1], ys), finding)
         == Findings(Absent(xs[..i], ys), finding) + if xs[i] in ys then [] else [finding(xs[i])]
  {
    var a := Absent(xs[..i], ys);
    assert Absent(xs[..i + 1], ys) == a + if xs[i] in ys then [] else [xs[i]] by {
      assert xs[..i + 1][..i] == xs[..i];
    }
    if xs[i] !in ys {
      FindingsSnoc(a, xs[i], finding);
    } else {
      assert a + [] == a;
    }
  }

  lemma FindingsSnoc(names: seq<string>, x: string, finding: string -> Validation)
    ensures Findings(names + [x], finding) == Findings(names, finding) + [finding(x)]
  {
    var l := Findings(names + [x], finding);
    var r := Findings(names, finding) + [finding(x)];
    assert |l| == |r|;
    forall k | 0 <= k < |l| ensures l[k] == r[k] {
      if k < |names| {
        assert (names + [x])[k] == names[k];
      }
    }
  }

  // ------------------------------------------------ prefixes of the metadata

  /** The resource ids upper-cased, in resource order. */
  function UpperIds(rs: seq<Resource>): (r: seq<string>)
    ensures |r| == |rs| && forall k :: 0 <= k < |rs| ==> r[k] == ToUpper(rs[k].id)
  {
    seq(|rs|, k requires 0 <= k < |rs| => ToUpper(rs[k].id))
  }

  /**
   * The prefixes a metadata declares: the set of its resource ids,
   * upper-cased, in sorted order.
   */
  function MetaDataPrefixes(md: MetaData): (r: seq<string>)
    ensures StrictlySorted(r)
    ensures forall x :: x in r <==> exists k :: 0 <= k < |md.resources| && x == ToUpper(md.resources[k].id)
  {
    var ids := UpperIds(md.resources);
    assert forall x :: x in ids <==> exists k :: 0 <= k < |ids| && ids[k] == x;
    SetOf(ids)
  }

  /** MetaData::get_prefixes: each resource id, upper-cased, inserted into a set. */
  method GetPrefixes(md: MetaData) returns (r: seq<string>)
    ensures r == MetaDataPrefixes(md)
  {
    r := [];
    var i := 0;
    while i < |md.resources|
      invariant 0 <= i <= |md.resources|
      invariant r == SetOf(UpperIds(md.resources[..i]))
    {
      assert UpperIds(md.resources[..i + 1])[..i] == UpperIds(md.resources[..i]);
      r := SetInsert(r, ToUpper(md.resources[i].id));
      i := i + 1;
    }
    assert md.resources[..i] == md.resources;
  }

  function NotInMetaData(prefix: string): Validation {
    CreateError(ONTOLOGY_NOT_IN_METADATA)
  }

  function SuperfluousEntry(prefix: string): Validation {
    CreateWarningMsg(METADATA_HAS_SUPERFLUOUS_ONTOLOGY, "MetaData includes superfluous entry for " + prefix)
  }

  /**
   * MetaData::validate_ontology_prefixes: an ERROR without a message for
   * each given prefix that no resource declares, then a WARNING naming
   * each declared prefix that is not given. Both passes run in sorted
   * order and compare exactly against the upper-cased resource ids.
   */
  method ValidateOntologyPrefixes(md: MetaData, prefixes: seq<string>, val: seq<Validation>) returns (r: seq<Validation>)
    ensures r == val + PrefixReport(SetOf(prefixes), MetaDataPrefixes(md), NotInMetaData, SuperfluousEntry)
  {
    var declared := GetPrefixes(md);
    var given := SetOf(prefixes);
    r := ReportAbsent(given, declared, NotInMetaData, val);
    r := ReportAbsent(declared, given, SuperfluousEntry, r);
  }

  /** A lower-case prefix never matches a resource: the ids are upper-cased before the comparison. */
  lemma LowerCasePrefixIsUndeclared(md: MetaData, prefix: string)
    requires |prefix| > 0 && 'a' <= prefix[0] <= 'z'
    ensures prefix !in MetaDataPrefixes(md)
  {
    forall k | 0 <= k < |md.resources|
      ensures prefix != ToUpper(md.resources[k].id)
    {
      var id := md.resources[k].id;
      if |id| > 0 {
        assert ToUpper(id)[0] != prefix[0];
      }
    }
  }

  // ----------------------------------------- prefixes used by a phenopacket

  const NoSubject := UndefinedBehaviour("subject_ dereferenced while empty")
  const NoDiseaseTerm := UndefinedBehaviour("the term of a Disease dereferenced while empty")
  const NoFeatureType := UndefinedBehaviour("the type of a PhenotypicFeature dereferenced while empty")
  const NoZygosity := UndefinedBehaviour("the zygosity of a Variant dereferenced while empty")
  const NoMetaData := UndefinedBehaviour("metadata_ dereferenced while empty")

  /** The prefixes each element contributes, inserted element by element; the first failure wins. */
  function Each<T>(xs: seq<T>, prefixesOf: T -> Result<seq<string>>): Result<seq<string>> {
    if |xs| == 0 then Ok([])
    else AndThen(Each(xs[..|xs| - 1], prefixesOf), prefixesOf(xs[|xs| - 1]))
  }

  /**
   * The collection over a list succeeds exactly when every element's
   * does, and then holds exactly the prefixes of the elements.
   */
  lemma {:induction false} EachCollects<T>(xs: seq<T>, prefixesOf: T -> Result<seq<string>>)
    ensures Each(xs, prefixesOf).Ok? <==> forall k :: 0 <= k < |xs| ==> prefixesOf(xs[k]).Ok?
    ensures Each(xs, prefixesOf).Ok? ==>
      forall x :: x in Each(xs, prefixesOf).value <==> exists k :: 0 <= k < |xs| && x in prefixesOf(xs[k]).value
  {
    if |xs| > 0 {
      var n := |xs| - 1;
      EachCollects(xs[..n], prefixesOf);
      assert forall k :: 0 <= k < n ==> xs[..n][k] == xs[k];
      if Each(xs, prefixesOf).Ok? {
        forall x | x in Each(xs, prefixesOf).value
          ensures exists k :: 0 <= k < |xs| && x in prefixesOf(xs[k]).value
        {
          if x !in prefixesOf(xs[n]).value {
            var k :| 0 <= k < n && x in prefixesOf(xs[..n][k]).value;
            assert x in prefixesOf(xs[k]).value;
          }
        }
        forall x, k | 0 <= k < |xs| && x in prefixesOf(xs[k]).value
          ensures x in Each(xs, prefixesOf).value
        {
          if k < n {
            assert x in prefixesOf(xs[..n][k]).value;
          }
        }
      }
    }
  }

  /** The loop that inserts the prefixes of each element after the ones already collected. */
  method InsertEach<T>(acc: seq<string>, xs: seq<T>, prefixesOf: T -> Result<seq<string>>) returns (r: Result<seq<string>>)
    ensures r == Then(acc, Each(xs, prefixesOf))
  {
    var collected := acc;
    var i := 0;
    assert acc + [] == acc;
    while i < |xs|
      invariant 0 <= i <= |xs|
      invariant Then(acc, Each(xs[..i], prefixesOf)) == Ok(collected)
    {
      assert xs[..i + 1][..i] == xs[..i];
      var found := prefixesOf(xs[i]);
      if found.Err? {
        EachFailurePersists(xs, prefixesOf, i + 1);
        return Err(found.error);
      }
      ThenAssociates(acc, [], Each(xs[..i], prefixesOf), found);
      collected := collected + found.value;
      i := i + 1;
    }
    assert xs[..i] == xs;
    r := Ok(collected);
  }

  /** Once a prefix of the elements fails, the whole list fails the same way. */
  lemma {:induction false} EachFailurePersists<T>(xs: seq<T>, prefixesOf: T -> Result<seq<string>>, i: nat)
    requires i <= |xs| && Each(xs[..i], prefixesOf).Err?
    ensures Each(xs, prefixesOf) == Each(xs[..i], prefixesOf)
    decreases |xs| - i
  {
    if i < |xs| {
      assert xs[..i + 1][..i] == xs[..i];
      EachFailurePersists(xs, prefixesOf, i + 1);
    } else {
      assert xs[..i] == xs;
    }
  }

  /** The subject's taxon, when there is one; the subject itself is dereferenced unchecked. */
  function TaxonPrefixes(subject: Option<Individual>): (r: Result<seq<string>>)
    ensures r.Err? <==> subject.None?
  {
    match subject
    case None => Err(NoSubject)
    case Some(ind) => Ok(if ind.taxonomy.Some? then [OntologyClassPrefix(ind.taxonomy.value)] else [])
  }

  /** The prefixes of one disease: its term's, then its class of onset's. */
  function DiseasePrefixes(d: Disease): (r: Result<seq<string>>)
    ensures r.Ok? <==> d.term.Some?
    ensures r.Ok? ==> OntologyClassPrefix(d.term.value) in r.value
    ensures r.Ok? && d.classOfOnset.Some? ==> OntologyClassPrefix(d.classOfOnset.value) in r.value
    ensures r.Ok? ==> |r.value| <= 2
  {
    if d.term.None? then Err(NoDiseaseTerm)
    else if d.classOfOnset.Some? then Ok([OntologyClassPrefix(d.term.value), OntologyClassPrefix(d.classOfOnset.value)])
    else Ok([OntologyClassPrefix(d.term.value)])
  }

  /**
   * The loop body as written: it reads a copy of the disease, so its
   * has_class_of_onset test is always false and only the copy's term counts.
   */
  function AsWrittenDiseasePrefixes(d: Disease): (r: Result<seq<string>>)
    ensures r == DiseasePrefixes(DiseaseCopy(d))
  {
    var c := DiseaseCopy(d);
    if c.term.None? then Err(NoDiseaseTerm) else Ok([OntologyClassPrefix(c.term.value)])
  }

  /** The prefix taken from a feature id: the text before its last ':', or the whole id when it has none. */
  function FeatureIdPrefix(id: string): (r: string)
    ensures ':' !in id ==> r == id
    ensures ':' in id ==> |r| < |id| && r == id[..|r|] && id[|r|] == ':' && ':' !in id[|r| + 1..]
  {
    match FindLastChar(id, ':')
    case None => id
    case Some(i) => id[..i]
  }

  /** The prefix of one feature's id; the feature's type is dereferenced unchecked. */
  function FeaturePrefixes(pf: PhenotypicFeature): (r: Result<seq<string>>)
    ensures r.Ok? <==> pf.featureType.Some?
    ensures r.Ok? ==> r.value == [FeatureIdPrefix(pf.featureType.value.id)]
  {
    if pf.featureType.None? then Err(NoFeatureType) else Ok([FeatureIdPrefix(pf.featureType.value.id)])
  }

  /** The zygosity's prefix, for a variant that has one. */
  function ZygosityPrefixes(v: Variant): (r: Result<seq<string>>)
    ensures r.Ok?
    ensures v.zygosity.None? <==> r.value == []
  {
    Ok(if v.zygosity.Some? then [OntologyClassPrefix(v.zygosity.value)] else [])
  }

  /** The loop body as written: the has_zygosity guard has an empty body, so the zygosity is always dereferenced. */
  function AsWrittenZygosityPrefixes(v: Variant): (r: Result<seq<string>>)
    ensures r.Err? <==> v.zygosity.None?
    ensures r.Ok? ==> r == ZygosityPrefixes(v)
  {
    if v.zygosity.None? then Err(NoZygosity) else Ok([OntologyClassPrefix(v.zygosity.value)])
  }

  /**
   * The prefixes validate_metadata_prefixes collects, in insertion order:
   * the taxon's, each disease's, each feature's, each variant's zygosity's.
   */
  function UsedPrefixes(p: Phenopacket): Result<seq<string>> {
    AndThen(TaxonPrefixes(p.subject),
      AndThen(Each(p.diseases, DiseasePrefixes),
        AndThen(Each(p.phenotypicFeatures, FeaturePrefixes), Each(p.variants, ZygosityPrefixes))))
  }

  /** The same collection as written: diseases read through a copy, zygosities dereferenced unchecked. */
  function AsWrittenUsedPrefixes(p: Phenopacket): Result<seq<string>> {
    AndThen(TaxonPrefixes(p.subject),
      AndThen(Each(p.diseases, AsWrittenDiseasePrefixes),
        AndThen(Each(p.phenotypicFeatures, FeaturePrefixes), Each(p.variants, AsWrittenZygosityPrefixes))))
  }

  /**
   * The collection fails exactly where the program dereferences an empty
   * shared_ptr: no subject, a disease without a term, a feature without a
   * type.
   */
  lemma UsedPrefixesOk(p: Phenopacket)
    ensures UsedPrefixes(p).Ok? <==> (p.subject.Some?
      && (forall k :: 0 <= k < |p.diseases| ==> p.diseases[k].term.Some?)
      && (forall k :: 0 <= k < |p.phenotypicFeatures| ==> p.phenotypicFeatures[k].featureType.Some?))
  {
    EachCollects(p.diseases, DiseasePrefixes);
    EachCollects(p.phenotypicFeatures, FeaturePrefixes);
    EachCollects(p.variants, ZygosityPrefixes);
  }

  /** A successful collection holds every feature's id prefix. */
  lemma UsedPrefixesCoverFeatures(p: Phenopacket)
    ensures UsedPrefixes(p).Ok? ==> forall k :: 0 <= k < |p.phenotypicFeatures| && p.phenotypicFeatures[k].featureType.Some? ==>
      FeatureIdPrefix(p.phenotypicFeatures[k].featureType.value.id) in UsedPrefixes(p).value
  {
    EachCollects(p.phenotypicFeatures, FeaturePrefixes);
    var features := Each(p.phenotypicFeatures, FeaturePrefixes);
    if UsedPrefixes(p).Ok? {
      forall k | 0 <= k < |p.phenotypicFeatures| && p.phenotypicFeatures[k].featureType.Some?
        ensures FeatureIdPrefix(p.phenotypicFeatures[k].featureType.value.id) in features.value
      {
        assert FeatureIdPrefix(p.phenotypicFeatures[k].featureType.value.id) in FeaturePrefixes(p.phenotypicFeatures[k]).value;
      }
    }
  }

  /** A successful collection holds the taxon's prefix and every disease's term and class of onset prefixes. */
  lemma UsedPrefixesCoverDiseases(p: Phenopacket)
    ensures UsedPrefixes(p).Ok? ==> forall k :: 0 <= k < |p.diseases| && p.diseases[k].term.Some? ==>
      OntologyClassPrefix(p.diseases[k].term.value) in UsedPrefixes(p).value
    ensures UsedPrefixes(p).Ok? ==> forall k :: 0 <= k < |p.diseases| && p.diseases[k].term.Some? && p.diseases[k].classOfOnset.Some? ==>
      OntologyClassPrefix(p.diseases[k].classOfOnset.value) in UsedPrefixes(p).value
    ensures UsedPrefixes(p).Ok? && p.subject.Some? && p.subject.value.taxonomy.Some? ==>
      OntologyClassPrefix(p.subject.value.taxonomy.value) in UsedPrefixes(p).value
  {
    EachCollects(p.diseases, DiseasePrefixes);
    var diseases := Each(p.diseases, DiseasePrefixes);
    if UsedPrefixes(p).Ok? {
      forall k | 0 <= k < |p.diseases| && p.diseases[k].term.Some?
        ensures OntologyClassPrefix(p.diseases[k].term.value) in diseases.value
        ensures p.diseases[k].classOfOnset.Some? ==> OntologyClassPrefix(p.diseases[k].classOfOnset.value) in diseases.value
      {
        assert OntologyClassPrefix(p.diseases[k].term.value) in DiseasePrefixes(p.diseases[k]).value;
      }
    }
  }

  function MissingOntology(prefix: string): Validation {
    CreateErrorMsg(METADATA_DOES_NOT_CONTAIN_ONTOLOGY, "Metadata did not contain ontology used in phenopacket: " + prefix)
  }

  function UnusedOntology(prefix: string): Validation {
    CreateWarningMsg(METADATA_HAS_SUPERFLUOUS_ONTOLOGY, "Metadata contains ontolog not used in Phenopacket: " + prefix)
  }

  /** What validate_metadata_prefixes appends once the prefixes are collected. */
  function CompareSpec(used: Result<seq<string>>, md: Option<MetaData>): Result<seq<Validation>> {
    match used
    case Err(e) => Err(e)
    case Ok(u) =>
      if md.None? then Err(NoMetaData)
      else Ok(PrefixReport(SetOf(u), MetaDataPrefixes(md.value), MissingOntology, UnusedOntology))
  }

  /**
   * What validate_metadata_prefixes appends: an ERROR naming each used
   * prefix the metadata does not declare, then a WARNING naming each
   * declared prefix that is not used.
   */
  function MetadataPrefixCheck(p: Phenopacket): Result<seq<Validation>> {
    CompareSpec(UsedPrefixes(p), p.metaData)
  }

  /** The same check over the prefixes collected as written. */
  function AsWrittenMetadataPrefixCheck(p: Phenopacket): Result<seq<Validation>> {
    CompareSpec(AsWrittenUsedPrefixes(p), p.metaData)
  }

  /** The prefix check as written, or corrected. */
  function PrefixCheck(p: Phenopacket, corrected: bool): Result<seq<Validation>> {
    if corrected then MetadataPrefixCheck(p) else AsWrittenMetadataPrefixCheck(p)
  }

  /**
   * The prefix check fails exactly when the collection fails or there is
   * no metadata; otherwise it finds nothing exactly when the prefixes used
   * are the prefixes declared, and each finding names one prefix of the
   * difference: an ERROR for one used only, a WARNING for one declared only.
   */
  lemma MetadataPrefixCheckMeaning(p: Phenopacket)
    ensures MetadataPrefixCheck(p).Ok? <==> UsedPrefixes(p).Ok? && p.metaData.Some?
    ensures MetadataPrefixCheck(p).Ok? ==>
      (MetadataPrefixCheck(p) == Ok([]) <==> forall x :: x in UsedPrefixes(p).value <==> x in MetaDataPrefixes(p.metaData.value))
    ensures MetadataPrefixCheck(p).Ok? ==> forall v :: v in MetadataPrefixCheck(p).value ==>
      (exists x :: x in UsedPrefixes(p).value && x !in MetaDataPrefixes(p.metaData.value) && v == MissingOntology(x))
      || (exists x :: x !in UsedPrefixes(p).value && x in MetaDataPrefixes(p.metaData.value) && v == UnusedOntology(x))
  {
    if MetadataPrefixCheck(p).Ok? {
      ComparedPrefixes(UsedPrefixes(p).value, MetaDataPrefixes(p.metaData.value));
    }
  }

  /** The report on collected prefixes against declared ones, for any two lists. */
  lemma ComparedPrefixes(used: seq<string>, declared: seq<string>)
    ensures var r := PrefixReport(SetOf(used), declared, MissingOntology, UnusedOntology);
      (r == [] <==> forall x :: x in used <==> x in declared)
      && forall v :: v in r ==>
        (exists x :: x in used && x !in declared && v == MissingOntology(x))
        || (exists x :: x !in used && x in declared && v == UnusedOntology(x))
  {
    PrefixReportFindings(SetOf(used), declared, MissingOntology, UnusedOntology);
  }

  /**
   * The collection loops of validate_metadata_prefixes: as written, or
   * with the zygosity guard and the disease read corrected.
   */
  method CollectUsedPrefixes(p: Phenopacket, corrected: bool) returns (r: Result<seq<string>>)
    ensures r == if corrected then UsedPrefixes(p) else AsWrittenUsedPrefixes(p)
  {
    var diseasePrefixes := if corrected then DiseasePrefixes else AsWrittenDiseasePrefixes;
    var zygosityPrefixes := if corrected then ZygosityPrefixes else AsWrittenZygosityPrefixes;
    var taxon := TaxonPrefixes(p.subject);
    var diseases := InsertAll(taxon, p.diseases, diseasePrefixes);
    r := CollectElementPrefixes(p, diseases, zygosityPrefixes);
    if taxon.Ok? {
      ThenAssociates(taxon.value, [], Each(p.diseases, diseasePrefixes),
        AndThen(Each(p.phenotypicFeatures, FeaturePrefixes), Each(p.variants, zygosityPrefixes)));
    }
  }

  /** One collection loop after the prefixes already collected, unless collecting them failed. */
  method InsertAll<T>(acc: Result<seq<string>>, xs: seq<T>, prefixesOf: T -> Result<seq<string>>) returns (r: Result<seq<string>>)
    ensures r == AndThen(acc, Each(xs, prefixesOf))
  {
    if acc.Err? {
      return acc;
    }
    r := InsertEach(acc.value, xs, prefixesOf);
  }

  /** The feature and variant loops, after the taxon and the diseases. */
  method CollectElementPrefixes(p: Phenopacket, acc: Result<seq<string>>, zygosityPrefixes: Variant -> Result<seq<string>>)
    returns (r: Result<seq<string>>)
    ensures r == AndThen(acc, AndThen(Each(p.phenotypicFeatures, FeaturePrefixes), Each(p.variants, zygosityPrefixes)))
  {
    if acc.Err? {
      return acc;
    }
    var features := InsertEach(acc.value, p.phenotypicFeatures, FeaturePrefixes);
    r := InsertAll(features, p.variants, zygosityPrefixes);
    ThenAssociates(acc.value, [], Each(p.phenotypicFeatures, FeaturePrefixes), Each(p.variants, zygosityPrefixes));
  }

  /** The two comparison loops of validate_metadata_prefixes, once the prefixes are collected. */
  method ComparePrefixes(used: seq<string>, md: MetaData, valids: seq<Validation>) returns (r: seq<Validation>)
    ensures r == valids + PrefixReport(SetOf(used), MetaDataPrefixes(md), MissingOntology, UnusedOntology)
  {
    var declared := GetPrefixes(md);
    var prefixes := SetOf(used);
    r := ReportAbsent(prefixes, declared, MissingOntology, valids);
    r := ReportAbsent(declared, prefixes, UnusedOntology, r);
  }

  /** The comparison step: the collection's failure, or the metadata dereferenced and compared. */
  method CompareWithMetaData(used: Result<seq<string>>, md: Option<MetaData>, valids: seq<Validation>)
    returns (r: Result<seq<Validation>>)
    ensures r == Then(valids, CompareSpec(used, md))
  {
    if used.Err? {
      return Err(used.error);
    }
    if md.None? {
      return Err(NoMetaData);
    }
    var found := ComparePrefixes(used.value, md.value, valids);
    r := Ok(found);
  }

  /**
   * Phenopacket::validate_metadata_prefixes: the prefix findings appended
   * after the given ones, which stay unchanged.
   */
  method ValidateMetadataPrefixes(p: Phenopacket, valids: seq<Validation>, corrected: bool) returns (r: Result<seq<Validation>>)
    ensures r == Then(valids, PrefixCheck(p, corrected))
  {
    var used := CollectUsedPrefixes(p, corrected);
    r := CompareWithMetaData(used, p.metaData, valids);
  }

  /**
   * A disease whose onset is a class loses its own term's prefix as
   * written: the copy it is read through holds the class of onset as its
   * term. The intended collection keeps both prefixes.
   */
  lemma AsWrittenDiseaseLosesTermPrefix(d: Disease)
    requires d.term.Some? && d.ageOfOnset.None? && d.ageRangeOfOnset.None? && d.classOfOnset.Some?
    requires OntologyClassPrefix(d.term.value) != OntologyClassPrefix(d.classOfOnset.value)
    ensures AsWrittenDiseasePrefixes(d) == Ok([OntologyClassPrefix(d.classOfOnset.value)])
    ensures DiseasePrefixes(d) == Ok([OntologyClassPrefix(d.term.value), OntologyClassPrefix(d.classOfOnset.value)])
  {
  }

  /** A copy of a copy is the copy: the class of onset is gone after the first one. */
  lemma DiseaseCopyIdempotent(d: Disease)
    ensures DiseaseCopy(DiseaseCopy(d)) == DiseaseCopy(d)
  {
  }

  /**
   * A variant without zygosity makes the collection as written fail with
   * an empty shared_ptr dereferenced (when nothing before it failed); the
   * intended collection skips that variant.
   */
  lemma AsWrittenZygosityGuardIsEmpty(p: Phenopacket, k: nat)
    requires k < |p.variants| && p.variants[k].zygosity.None?
    ensures AsWrittenUsedPrefixes(p).Err?
    ensures ZygosityPrefixes(p.variants[k]) == Ok([])
  {
    EachCollects(p.variants, AsWrittenZygosityPrefixes);
  }

  // ------------------------------------------------- features and their terms

  /** The term id of a feature: from_string of its type's id, which is dereferenced unchecked. */
  function FeatureTermId(pf: PhenotypicFeature): Result<TermId> {
    if pf.featureType.None? then Err(NoFeatureType) else FromString(pf.featureType.value.id)
  }

  /** The term ids of all features, in feature order. */
  function FeatureTermIds(fs: seq<PhenotypicFeature>): Result<seq<TermId>> {
    Parsed(fs, FeatureTermId)
  }

  /** The ids of the features that are not negated, in feature order. */
  function Observed(fs: seq<PhenotypicFeature>, ids: seq<TermId>): seq<TermId>
    requires |ids| == |fs|
  {
    if |fs| == 0 then []
    else Observed(fs[..|fs| - 1], ids[..|fs| - 1]) + if fs[|fs| - 1].negated then [] else [ids[|fs| - 1]]
  }

  /** An id is observed exactly when some feature that is not negated has it. */
  lemma {:induction false} ObservedMembers(fs: seq<PhenotypicFeature>, ids: seq<TermId>)
    requires |ids| == |fs|
    ensures forall t :: t in Observed(fs, ids) <==> exists k :: 0 <= k < |fs| && !fs[k].negated && ids[k] == t
  {
    if |fs| > 0 {
      var n := |fs| - 1;
      ObservedMembers(fs[..n], ids[..n]);
      assert forall k :: 0 <= k < n ==> fs[..n][k] == fs[k] && ids[..n][k] == ids[k];
    }
  }

  function UnrecognizedText(t: TermId): string {
    "[ERROR] Could not find " + t.value + " in the ontology"
  }

  function Unrecognized(t: TermId): Validation {
    CreateErrorMsg(UNRECOGNIZED_TERMID, UnrecognizedText(t))
  }

  /** An ERROR naming each id that the ontology does not hold, in order. */
  function UnknownFindings(ids: seq<TermId>, terms: map<string, O.TermData>): seq<Validation> {
    if |ids| == 0 then []
    else UnknownFindings(ids[..|ids| - 1], terms) + if ids[|ids| - 1].value in terms then [] else [Unrecognized(ids[|ids| - 1])]
  }

  /** There is one finding per unknown id, naming it, and no other. */
  lemma {:induction false} UnknownFindingsMembers(ids: seq<TermId>, terms: map<string, O.TermData>)
    ensures |UnknownFindings(ids, terms)| <= |ids|
    ensures forall v :: v in UnknownFindings(ids, terms) <==>
      exists k :: 0 <= k < |ids| && ids[k].value !in terms && v == Unrecognized(ids[k])
    ensures UnknownFindings(ids, terms) == [] <==> forall k :: 0 <= k < |ids| ==> ids[k].value in terms
  {
    if |ids| > 0 {
      var n := |ids| - 1;
      var front, last := ids[..n], ids[n];
      UnknownFindingsMembers(front, terms);
      var extra := if last.value in terms then [] else [Unrecognized(last)];
      var all := UnknownFindings(ids, terms);
      assert all == UnknownFindings(front, terms) + extra;
      forall v ensures v in all <==> exists k :: 0 <= k < |ids| && ids[k].value !in terms && v == Unrecognized(ids[k]) {
        if v in all && v in UnknownFindings(front, terms) {
          var k :| 0 <= k < n && front[k].value !in terms && v == Unrecognized(front[k]);
          assert ids[k] == front[k];
        }
        if exists k :: 0 <= k < |ids| && ids[k].value !in terms && v == Unrecognized(ids[k]) {
          var k :| 0 <= k < |ids| && ids[k].value !in terms && v == Unrecognized(ids[k]);
          if k < n {
            assert front[k] == ids[k];
          }
        }
      }
      if forall k :: 0 <= k < |ids| ==> ids[k].value in terms {
        assert forall k :: 0 <= k < n ==> front[k].value in terms by {
          forall k | 0 <= k < n ensures front[k].value in terms {
            assert front[k] == ids[k];
          }
        }
      } else {
        var k :| 0 <= k < |ids| && ids[k].value !in terms;
        assert Unrecognized(ids[k]) in all;
      }
    }
  }

  /** What the feature loop of semantically_validate leaves: the observed and excluded ids and the findings. */
  datatype Scan = Scan(observed: seq<TermId>, excluded: seq<TermId>, findings: seq<Validation>)

  /** The scan of the features as a function: the failure, or the observed ids and the unknown-term findings. */
  function ScanSpec(fs: seq<PhenotypicFeature>, terms: map<string, O.TermData>): Result<(seq<TermId>, seq<Validation>)> {
    match FeatureTermIds(fs)
    case Err(e) => Err(e)
    case Ok(ids) =>
      ParsedMeaning(fs, FeatureTermId);
      Ok((Observed(fs, ids), UnknownFindings(ids, terms)))
  }

  /**
   * The feature loop of semantically_validate: each feature's id is
   * parsed (a failure propagates), filed as observed or excluded, and an
   * ERROR is recorded when the ontology has no term under it.
   */
  method ScanFeatures(fs: seq<PhenotypicFeature>, onto: O.Ontology) returns (r: Result<Scan>)
    ensures r.Err? <==> ScanSpec(fs, onto.termMap).Err?
    ensures r.Err? ==> r.error == ScanSpec(fs, onto.termMap).error
    ensures r.Ok? ==> (r.value.observed, r.value.findings) == ScanSpec(fs, onto.termMap).value
  {
    var observed: seq<TermId> := [];
    var excluded: seq<TermId> := [];
    var findings: seq<Validation> := [];
    ghost var ids: seq<TermId> := [];
    var i := 0;
    while i < |fs|
      invariant 0 <= i <= |fs|
      invariant FeatureTermIds(fs[..i]) == Ok(ids) && |ids| == i
      invariant observed == Observed(fs[..i], ids)
      invariant findings == UnknownFindings(ids, onto.termMap)
    {
      assert fs[..i + 1][..i] == fs[..i];
      var tid := FeatureTermId(fs[i]);
      if tid.Err? {
        ParsedFailurePersists(fs, FeatureTermId, i + 1);
        return Err(tid.error);
      }
      observed, excluded := FileFeature(fs[i], tid.value, observed, excluded);
      var known := onto.GetTerm(tid.value);
      findings := RecordUnknown(known, tid.value, findings);
      assert (ids + [tid.value])[..i] == ids;
      ids := ids + [tid.value];
      i := i + 1;
    }
    assert fs[..i] == fs;
    r := Ok(Scan(observed, excluded, findings));
  }

  /** A negated feature's id goes to the excluded ids, any other's to the observed ones. */
  method FileFeature(pf: PhenotypicFeature, tid: TermId, observed: seq<TermId>, excluded: seq<TermId>)
    returns (observed': seq<TermId>, excluded': seq<TermId>)
    ensures pf.negated ==> observed' == observed && excluded' == excluded + [tid]
    ensures !pf.negated ==> observed' == observed + [tid] && excluded' == excluded
  {
    if pf.negated {
      observed', excluded' := observed, excluded + [tid];
    } else {
      observed', excluded' := observed + [tid], excluded;
    }
  }

  /** The UNRECOGNIZED_TERMID finding when get_term found nothing. */
  method RecordUnknown(known: Option<O.TermData>, tid: TermId, findings: seq<Validation>) returns (r: seq<Validation>)
    ensures known.None? ==> r == findings + [Unrecognized(tid)]
    ensures known.Some? ==> r == findings
  {
    r := findings;
    if known.None? {
      r := r + [Unrecognized(tid)];
    }
  }

  // -------------------------------------------------------- redundant pairs

  /** sub is a proper descendant of sup: both are numbered and an IS_A path leads from sub to sup. */
  ghost predicate Path(g: Arrays, idx: map<string, nat>, sub: TermId, sup: TermId) {
    sub.value in idx && sup.value in idx && Reaches(g, idx[sub.value], idx[sup.value], IS_A)
  }

  /** Every numbered id is also filed with its term, so the labels of a path's ends can be read. */
  predicate Filed(idx: map<string, nat>, terms: map<string, O.TermData>) {
    forall k :: k in idx ==> k in terms
  }

  function RedundantText(sub: TermId, subLabel: string, sup: TermId, supLabel: string): string {
    "[ERROR] Redundant terms: " + sub.value + "(" + subLabel + ") is a subclass of " + sup.value + "(" + supLabel + ")"
  }

  const NoLabel := UndefinedBehaviour("get_term of an id without a term dereferenced")

  /**
   * One direction of a pair: a REDUNDANT_ANNOTATION ERROR naming both
   * terms and their labels when sub lies below sup. The labels are read
   * from optionals the program does not check.
   */
  ghost function Directed(g: Arrays, idx: map<string, nat>, terms: map<string, O.TermData>, sub: TermId, sup: TermId)
    : Result<seq<Validation>>
  {
    if !Path(g, idx, sub, sup) then Ok([])
    else if sub.value in terms && sup.value in terms then
      Ok([CreateErrorMsg(REDUNDANT_ANNOTATION, RedundantText(sub, terms[sub.value].name, sup, terms[sup.value].name))])
    else Err(NoLabel)
  }

  /** Both directions of the pair (a, b), forward first. */
  ghost function Pair(g: Arrays, idx: map<string, nat>, terms: map<string, O.TermData>, a: TermId, b: TermId)
    : Result<seq<Validation>>
  {
    AndThen(Directed(g, idx, terms, a, b), Directed(g, idx, terms, b, a))
  }

  /** The inner loop from j on: the pairs (obs[i], obs[j']) for j <= j'. */
  ghost function Row(g: Arrays, idx: map<string, nat>, terms: map<string, O.TermData>, obs: seq<TermId>, i: nat, j: nat)
    : Result<seq<Validation>>
    decreases |obs| - j
  {
    if i >= |obs| || j >= |obs| then Ok([])
    else AndThen(Pair(g, idx, terms, obs[i], obs[j]), Row(g, idx, terms, obs, i, j + 1))
  }

  /** The outer loop from i on: every pair (obs[a], obs[b]) with i <= a < b. */
  ghost function Rows(g: Arrays, idx: map<string, nat>, terms: map<string, O.TermData>, obs: seq<TermId>, i: nat)
    : Result<seq<Validation>>
    decreases |obs| - i
  {
    if i >= |obs| then Ok([])
    else AndThen(Row(g, idx, terms, obs, i, i + 1), Rows(g, idx, terms, obs, i + 1))
  }

  /** Every redundancy finding is an ERROR with cause REDUNDANT_ANNOTATION. */
  predicate AllRedundant(r: Result<seq<Validation>>) {
    r.Ok? ==> forall v :: v in r.value ==> v.cause == REDUNDANT_ANNOTATION && IsError(v)
  }

  /**
   * One pair finds nothing exactly when neither term lies below the
   * other; what it finds are REDUNDANT_ANNOTATION errors; it fails only
   * when a term on a path has no label.
   */
  lemma PairMeaning(g: Arrays, idx: map<string, nat>, terms: map<string, O.TermData>, a: TermId, b: TermId)
    ensures Pair(g, idx, terms, a, b) == Ok([]) <==> !Path(g, idx, a, b) && !Path(g, idx, b, a)
    ensures AllRedundant(Pair(g, idx, terms, a, b))
    ensures Filed(idx, terms) ==> Pair(g, idx, terms, a, b).Ok?
  {
    AndThenEmpty(Directed(g, idx, terms, a, b), Directed(g, idx, terms, b, a));
  }

  /** The same for the inner loop over the pairs (obs[i], obs[b]), j <= b. */
  lemma {:induction false} RowMeaning(g: Arrays, idx: map<string, nat>, terms: map<string, O.TermData>, obs: seq<TermId>, i: nat, j: nat)
    requires i < |obs|
    ensures Row(g, idx, terms, obs, i, j) == Ok([]) <==>
      forall b :: j <= b < |obs| ==> !Path(g, idx, obs[i], obs[b]) && !Path(g, idx, obs[b], obs[i])
    ensures AllRedundant(Row(g, idx, terms, obs, i, j))
    ensures Filed(idx, terms) ==> Row(g, idx, terms, obs, i, j).Ok?
    decreases |obs| - j
  {
    if j < |obs| {
      RowMeaning(g, idx, terms, obs, i, j + 1);
      PairMeaning(g, idx, terms, obs[i], obs[j]);
      AndThenEmpty(Pair(g, idx, terms, obs[i], obs[j]), Row(g, idx, terms, obs, i, j + 1));
    }
  }

  /**
   * The pair check finds nothing exactly when no observed term lies below
   * another; what it finds are REDUNDANT_ANNOTATION errors; and it fails
   * only when a term on a path has no label.
   */
  lemma {:induction false} RowsMeaning(g: Arrays, idx: map<string, nat>, terms: map<string, O.TermData>, obs: seq<TermId>, i: nat)
    ensures Rows(g, idx, terms, obs, i) == Ok([]) <==>
      forall a, b :: i <= a < b < |obs| ==> !Path(g, idx, obs[a], obs[b]) && !Path(g, idx, obs[b], obs[a])
    ensures AllRedundant(Rows(g, idx, terms, obs, i))
    ensures Filed(idx, terms) ==> Rows(g, idx, terms, obs, i).Ok?
    decreases |obs| - i
  {
    if i < |obs| {
      RowsMeaning(g, idx, terms, obs, i + 1);
      RowMeaning(g, idx, terms, obs, i, i + 1);
      AndThenEmpty(Row(g, idx, terms, obs, i, i + 1), Rows(g, idx, terms, obs, i + 1));
    }
  }

  /** One direction of the pair check: exists_path along IS_A, then both labels. */
  method CheckDirected(onto: O.Ontology, sub: TermId, sup: TermId, ghost rank: seq<nat>) returns (r: Result<seq<Validation>>)
    requires onto.Valid() && Acyclic(onto.EdgeArrays(), |onto.currentTermIds|, IS_A, rank)
    ensures r == Directed(onto.EdgeArrays(), onto.termidToIndex, onto.termMap, sub, sup)
  {
    var found := onto.ExistsIsaPath(sub, sup, rank);
    r := LabelPair(found, onto.GetTerm(sub), onto.GetTerm(sup), sub, sup);
  }

  /** The finding of one direction once exists_path has answered: both labels read, or nothing. */
  method LabelPair(found: bool, subTerm: Option<O.TermData>, supTerm: Option<O.TermData>, sub: TermId, sup: TermId)
    returns (r: Result<seq<Validation>>)
    ensures !found ==> r == Ok([])
    ensures found && (subTerm.None? || supTerm.None?) ==> r == Err(NoLabel)
    ensures found && subTerm.Some? && supTerm.Some? ==>
      r == Ok([CreateErrorMsg(REDUNDANT_ANNOTATION, RedundantText(sub, subTerm.value.name, sup, supTerm.value.name))])
  {
    if !found {
      return Ok([]);
    }
    if subTerm.None? || supTerm.None? {
      return Err(NoLabel);
    }
    r := Ok([CreateErrorMsg(REDUNDANT_ANNOTATION, RedundantText(sub, subTerm.value.name, sup, supTerm.value.name))]);
  }

  /** Both directions of a pair, the forward one's failure first. */
  method JoinPair(forward: Result<seq<Validation>>, backward: Result<seq<Validation>>) returns (r: Result<seq<Validation>>)
    ensures r == AndThen(forward, backward)
  {
    if forward.Err? {
      return forward;
    }
    if backward.Err? {
      return backward;
    }
    r := Ok(forward.value + backward.value);
  }

  /** The inner loop of the pair check for observed term i. */
  method CheckRow(onto: O.Ontology, obs: seq<TermId>, i: nat, ghost rank: seq<nat>) returns (r: Result<seq<Validation>>)
    requires onto.Valid() && Acyclic(onto.EdgeArrays(), |onto.currentTermIds|, IS_A, rank)
    requires i < |obs|
    ensures r == Row(onto.EdgeArrays(), onto.termidToIndex, onto.termMap, obs, i, i + 1)
  {
    ghost var g, idx, terms := onto.EdgeArrays(), onto.termidToIndex, onto.termMap;
    var acc: seq<Validation> := [];
    var j := i + 1;
    ThenAssociates([], [], Row(g, idx, terms, obs, i, j), Ok([]));
    while j < |obs|
      invariant i + 1 <= j <= |obs|
      invariant Then(acc, Row(g, idx, terms, obs, i, j)) == Row(g, idx, terms, obs, i, i + 1)
      decreases |obs| - j
    {
      var forward := CheckDirected(onto, obs[i], obs[j], rank);
      var backward := CheckDirected(onto, obs[j], obs[i], rank);
      var pair := JoinPair(forward, backward);
      if pair.Err? {
        return pair;
      }
      ThenAssociates(acc, pair.value, Row(g, idx, terms, obs, i, j + 1), Ok([]));
      acc := acc + pair.value;
      j := j + 1;
    }
    assert acc + [] == acc;
    r := Ok(acc);
  }

  /** The nested loops of semantically_validate over the observed ids: pairs i < j, both directions. */
  method CheckRedundancy(onto: O.Ontology, obs: seq<TermId>, ghost rank: seq<nat>) returns (r: Result<seq<Validation>>)
    requires onto.Valid() && Acyclic(onto.EdgeArrays(), |onto.currentTermIds|, IS_A, rank)
    ensures r == Rows(onto.EdgeArrays(), onto.termidToIndex, onto.termMap, obs, 0)
  {
    ghost var g, idx, terms := onto.EdgeArrays(), onto.termidToIndex, onto.termMap;
    var acc: seq<Validation> := [];
    var i := 0;
    ThenAssociates([], [], Rows(g, idx, terms, obs, 0), Ok([]));
    while i < |obs|
      invariant 0 <= i <= |obs|
      invariant Then(acc, Rows(g, idx, terms, obs, i)) == Rows(g, idx, terms, obs, 0)
      decreases |obs| - i
    {
      var row := CheckRow(onto, obs, i, rank);
      if row.Err? {
        return row;
      }
      ThenAssociates(acc, row.value, Rows(g, idx, terms, obs, i + 1), Ok([]));
      acc := acc + row.value;
      i := i + 1;
    }
    assert acc + [] == acc;
    r := Ok(acc);
  }

  // ------------------------------------------------- semantically_validate

  /**
   * The findings of semantically_validate: an ERROR for each feature
   * whose term is unknown, then the redundant pairs among the observed
   * features, then the metadata prefix findings, as written or corrected.
   */
  ghost function SemanticCheck(p: Phenopacket, g: Arrays, idx: map<string, nat>, terms: map<string, O.TermData>, corrected: bool)
    : Result<seq<Validation>>
  {
    match ScanSpec(p.phenotypicFeatures, terms)
    case Err(e) => Err(e)
    case Ok(scan) => Then(scan.1, AndThen(Rows(g, idx, terms, scan.0, 0), PrefixCheck(p, corrected)))
  }

  /**
   * Phenopacket::semantically_validate. The ontology's IS_A edges must have
   * no cycle (rank witnesses it), as exists_path needs that to end.
   */
  method SemanticallyValidate(p: Phenopacket, onto: O.Ontology, ghost rank: seq<nat>, corrected: bool) returns (r: Result<seq<Validation>>)
    requires onto.Valid() && Acyclic(onto.EdgeArrays(), |onto.currentTermIds|, IS_A, rank)
    ensures r == SemanticCheck(p, onto.EdgeArrays(), onto.termidToIndex, onto.termMap, corrected)
  {
    var scan := ScanFeatures(p.phenotypicFeatures, onto);
    r := CheckScanned(p, onto, scan, rank, corrected);
  }

  /** The pair check and the prefix check after a feature scan that did not fail. */
  method CheckScanned(p: Phenopacket, onto: O.Ontology, scan: Result<Scan>, ghost rank: seq<nat>, corrected: bool) returns (r: Result<seq<Validation>>)
    requires onto.Valid() && Acyclic(onto.EdgeArrays(), |onto.currentTermIds|, IS_A, rank)
    requires scan.Err? <==> ScanSpec(p.phenotypicFeatures, onto.termMap).Err?
    requires scan.Err? ==> scan.error == ScanSpec(p.phenotypicFeatures, onto.termMap).error
    requires scan.Ok? ==> (scan.value.observed, scan.value.findings) == ScanSpec(p.phenotypicFeatures, onto.termMap).value
    ensures r == SemanticCheck(p, onto.EdgeArrays(), onto.termidToIndex, onto.termMap, corrected)
  {
    if scan.Err? {
      return Err(scan.error);
    }
    var redundant := CheckRedundancy(onto, scan.value.observed, rank);
    r := FinishSemantic(p, scan.value.findings, redundant, corrected);
  }

  /** validate_metadata_prefixes after the feature and pair findings, unless the pair check failed. */
  method FinishSemantic(p: Phenopacket, unknown: seq<Validation>, redundant: Result<seq<Validation>>, corrected: bool)
    returns (r: Result<seq<Validation>>)
    ensures r == Then(unknown, AndThen(redundant, PrefixCheck(p, corrected)))
  {
    if redundant.Err? {
      return Err(redundant.error);
    }
    r := ValidateMetadataPrefixes(p, unknown + redundant.value, corrected);
    ThenAssociates(unknown, redundant.value, PrefixCheck(p, corrected), Ok([]));
  }

  /**
   * Semantic validation finds nothing exactly when every feature id
   * parses and is known, no observed term lies below another, and the
   * prefixes used are exactly the prefixes declared.
   */
  lemma SemanticCheckClean(p: Phenopacket, g: Arrays, idx: map<string, nat>, terms: map<string, O.TermData>, corrected: bool)
    requires ScanSpec(p.phenotypicFeatures, terms).Ok?
    ensures SemanticCheck(p, g, idx, terms, corrected) == Ok([]) <==>
      UnknownFindings(FeatureTermIds(p.phenotypicFeatures).value, terms) == []
      && Rows(g, idx, terms, ScanSpec(p.phenotypicFeatures, terms).value.0, 0) == Ok([])
      && PrefixCheck(p, corrected) == Ok([])
  {
    var scan := ScanSpec(p.phenotypicFeatures, terms).value;
    AndThenEmpty(Rows(g, idx, terms, scan.0, 0), PrefixCheck(p, corrected));
    var rest := AndThen(Rows(g, idx, terms, scan.0, 0), PrefixCheck(p, corrected));
    if rest.Ok? {
      assert |scan.1 + rest.value| == |scan.1| + |rest.value|;
    }
  }
}
