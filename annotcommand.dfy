/**
 * The "annotation" command: among the OMIM annotations of phenotype.hpoa,
 * count those to terms below a given HPO term, list the ones whose
 * curations are all on or after a given date, and write two summary lines.
 *
 * The command is modelled as written (corrected == false: newer_than
 * compares the date fields one by one and to_string overwrites the
 * curator) and corrected (corrected == true: dates compare as dates and
 * the curator is followed by the date).
 */
module AnnotCommand {
  import opened Wrappers
  import opened Strings
  import opened TermIds
  import opened Dates
  import opened Edges
  import opened Graph
  import opened Ontology
  import opened HpoAnnotations

  // ------------------------------------------------------------- the lines

  /** The label of the target term, "n/a" when the ontology does not have it. */
  function LabelOf(t: Option<TermData>): string {
    if t.Some? then t.value.name else "n/a"
  }

  /** The first line: the target id and its label in parentheses. */
  function Header(tid: TermId, termLabel: string): string {
    "#" + tid.value + " (" + termLabel + ")"
  }

  /** The row of an annotation: disease id, disease name, phenotype id, NOT flag and the curations text, tab-separated. */
  function RowWith(a: HpoAnnotation, curations: string): string {
    a.diseaseId.value + "\t" + a.diseaseName + "\t" + a.hpoId.value + "\t" + GetNegated(a) + "\t" + curations
  }

  /** The row as written: get_biocuration_string joins the overwritten texts. */
  function AsWrittenRow(a: HpoAnnotation): string {
    RowWith(a, Join(AsWrittenTexts(a.curations), ';'))
  }

  /** The row as intended: each curator followed by its date. */
  function Row(a: HpoAnnotation): string {
    RowWith(a, Join(Texts(a.curations), ';'))
  }

  /** The rows of the listed annotations, in order. */
  function Rows(newer: seq<HpoAnnotation>, corrected: bool): seq<string> {
    if corrected then Mapped(newer, Row) else Mapped(newer, AsWrittenRow)
  }

  /** The test a counted annotation must pass to be listed: newer_than as written, or the date order. */
  predicate Passes(a: HpoAnnotation, threshold: Tm, corrected: bool) {
    if corrected then Newer(a, threshold) else AsWrittenNewer(a, threshold)
  }

  /** The summary line with the number of annotations counted. */
  function TotalLine(termLabel: string, total: int): string {
    "#total annotations to terms descending from " + termLabel + ":" + IntToString(total)
  }

  /** The summary line with the number of those newer than the date. */
  function NewerLine(date: string, newer: int): string {
    "#total annotations newer than " + date + ":" + IntToString(newer)
  }

  // --------------------------------------------------------- what is counted

  /** The phenotype is below the target: a path of one or more IS_A edges leads from it to the target. */
  ghost predicate Descends(g: Arrays, idx: map<string, nat>, hpo: TermId, tid: TermId) {
    hpo.value in idx && tid.value in idx && Reaches(g, idx[hpo.value], idx[tid.value], IS_A)
  }

  /** The annotations the loop counts: the OMIM ones whose phenotype descends from the target, in file order. */
  ghost function Counted(annots: seq<HpoAnnotation>, g: Arrays, idx: map<string, nat>, tid: TermId): seq<HpoAnnotation> {
    if |annots| == 0 then []
    else
      var a := annots[|annots| - 1];
      Counted(annots[..|annots| - 1], g, idx, tid) + if IsOmim(a) && Descends(g, idx, a.hpoId, tid) then [a] else []
  }

  /** The annotations that pass the test against the threshold, in order. */
  function NewerOnes(annots: seq<HpoAnnotation>, threshold: Tm, corrected: bool): seq<HpoAnnotation> {
    if |annots| == 0 then []
    else
      var a := annots[|annots| - 1];
      NewerOnes(annots[..|annots| - 1], threshold, corrected) + if Passes(a, threshold, corrected) then [a] else []
  }

  /**
   * What output_descendants writes: nothing when the date is not read, the
   * term id is malformed or the annotation file fails; otherwise the
   * header, one row per counted annotation that passes the test against
   * the date, and the two summary lines.
   */
  ghost function DescendantsReport(date: string, termid: string, contents: Option<string>, onto: Ontology, corrected: bool): Result<seq<string>>
    reads onto
  {
    match StringToTime(date)
    case Err(e) => Err(e)
    case Ok(threshold) =>
      match FromString(termid)
      case Err(e) => Err(e)
      case Ok(tid) =>
        match HpoaOf(contents)
        case Err(e) => Err(e)
        case Ok(annots) =>
          var termLabel := LabelOf(onto.GetTerm(tid));
          var counted := Counted(annots, onto.EdgeArrays(), onto.termidToIndex, tid);
          var newer := NewerOnes(counted, threshold, corrected);
          Ok([Header(tid, termLabel)] + Rows(newer, corrected) + [TotalLine(termLabel, |counted|), NewerLine(date, |newer|)])
  }

  lemma CountedSnoc(annots: seq<HpoAnnotation>, k: nat, g: Arrays, idx: map<string, nat>, tid: TermId)
    requires k < |annots|
    ensures Counted(annots[..k + 1], g, idx, tid) == Counted(annots[..k], g, idx, tid)
      + if IsOmim(annots[k]) && Descends(g, idx, annots[k].hpoId, tid) then [annots[k]] else []
  {
    assert annots[..k + 1][..k] == annots[..k];
  }

  lemma NewerOnesSnoc(annots: seq<HpoAnnotation>, a: HpoAnnotation, threshold: Tm, corrected: bool)
    ensures NewerOnes(annots + [a], threshold, corrected) == NewerOnes(annots, threshold, corrected) + if Passes(a, threshold, corrected) then [a] else []
  {
    assert (annots + [a])[..|annots|] == annots;
  }

  /** One more counted annotation adds one row, its own, exactly when it passes the test. */
  lemma ReportStep(counted: seq<HpoAnnotation>, a: HpoAnnotation, threshold: Tm, corrected: bool)
    ensures Passes(a, threshold, corrected) ==> NewerOnes(counted + [a], threshold, corrected) == NewerOnes(counted, threshold, corrected) + [a]
    ensures Passes(a, threshold, corrected) ==>
      Rows(NewerOnes(counted + [a], threshold, corrected), corrected)
      == Rows(NewerOnes(counted, threshold, corrected), corrected) + [if corrected then Row(a) else AsWrittenRow(a)]
    ensures !Passes(a, threshold, corrected) ==> NewerOnes(counted + [a], threshold, corrected) == NewerOnes(counted, threshold, corrected)
  {
    NewerOnesSnoc(counted, a, threshold, corrected);
    if corrected {
      MappedSnoc(NewerOnes(counted, threshold, corrected), a, Row);
    } else {
      MappedSnoc(NewerOnes(counted, threshold, corrected), a, AsWrittenRow);
    }
  }

  /**
   * AnnotationCommand::output_descendants, over the contents of
   * phenotype.hpoa and the ontology read from hp.json, as written or
   * corrected.
   */
  method OutputDescendants(date: string, termid: string, contents: Option<string>, onto: Ontology, ghost rank: seq<nat>, corrected: bool)
    returns (r: Result<seq<string>>)
    requires onto.Valid() && Acyclic(onto.EdgeArrays(), |onto.currentTermIds|, IS_A, rank)
    ensures r == DescendantsReport(date, termid, contents, onto, corrected)
  {
    var scanned := StringToTime(date);
    if scanned.Err? {
      return Err(scanned.error);
    }
    var parsedId := FromString(termid);
    if parsedId.Err? {
      return Err(parsedId.error);
    }
    var tid := parsedId.value;
    var parsed := ParsePhenotypeHpoa(contents);
    if parsed.Err? {
      return Err(parsed.error);
    }
    var termLabel := LabelOf(onto.GetTerm(tid));
    var total, newer, rows := CountDescendants(parsed.value, tid, scanned.value, onto, rank, corrected);
    r := Ok([Header(tid, termLabel)] + rows + [TotalLine(termLabel, total), NewerLine(date, newer)]);
  }

  /** The loop of output_descendants: the counts and the rows it writes. */
  method CountDescendants(annots: seq<HpoAnnotation>, tid: TermId, threshold: Tm, onto: Ontology, ghost rank: seq<nat>, corrected: bool)
    returns (total: int, newer: int, rows: seq<string>)
    requires onto.Valid() && Acyclic(onto.EdgeArrays(), |onto.currentTermIds|, IS_A, rank)
    ensures var counted := Counted(annots, onto.EdgeArrays(), onto.termidToIndex, tid);
      total == |counted| && newer == |NewerOnes(counted, threshold, corrected)|
      && rows == Rows(NewerOnes(counted, threshold, corrected), corrected)
  {
    ghost var g, idx := onto.EdgeArrays(), onto.termidToIndex;
    ghost var counted: seq<HpoAnnotation> := [];
    total := 0;
    newer := 0;
    rows := [];
    for k := 0 to |annots|
      invariant counted == Counted(annots[..k], g, idx, tid)
      invariant total == |counted| && newer == |NewerOnes(counted, threshold, corrected)|
      invariant rows == Rows(NewerOnes(counted, threshold, corrected), corrected)
    {
      var ann := annots[k];
      CountedSnoc(annots, k, g, idx, tid);
      if !IsOmim(ann) {
        continue;
      }
      var found := onto.ExistsIsaPath(ann.hpoId, tid, rank);
      if !found {
        continue;
      }
      ReportStep(counted, ann, threshold, corrected);
      counted := counted + [ann];
      total := total + 1;
      var isNewer;
      if corrected {
        isNewer := NewerThan(ann, threshold);
      } else {
        isNewer := AsWrittenNewerThan(ann, threshold);
      }
      if isNewer {
        newer := newer + 1;
        var row := WriteRow(ann, corrected);
        rows := rows + [row];
      }
    }
    assert annots[..|annots|] == annots;
  }

  /** The row written for an annotation, with get_biocuration_string for the last field. */
  method WriteRow(a: HpoAnnotation, corrected: bool) returns (row: string)
    ensures row == if corrected then Row(a) else AsWrittenRow(a)
  {
    var curations;
    if corrected {
      curations := BiocurationString(a);
    } else {
      curations := AsWrittenBiocurationString(a);
    }
    row := a.diseaseId.value + "\t" + a.diseaseName + "\t" + a.hpoId.value + "\t" + GetNegated(a) + "\t" + curations;
  }

  /** An annotation is counted exactly when it is an OMIM annotation of the file whose phenotype descends from the target. */
  lemma {:induction false} CountedMembers(annots: seq<HpoAnnotation>, g: Arrays, idx: map<string, nat>, tid: TermId)
    ensures |Counted(annots, g, idx, tid)| <= |annots|
    ensures forall a :: a in Counted(annots, g, idx, tid) <==> a in annots && IsOmim(a) && Descends(g, idx, a.hpoId, tid)
  {
    if |annots| > 0 {
      var n := |annots| - 1;
      CountedMembers(annots[..n], g, idx, tid);
      assert annots == annots[..n] + [annots[n]];
    }
  }

  /** An annotation is listed exactly when it is one of the given ones and passes the test. */
  lemma {:induction false} NewerOnesMembers(annots: seq<HpoAnnotation>, threshold: Tm, corrected: bool)
    ensures |NewerOnes(annots, threshold, corrected)| <= |annots|
    ensures forall a :: a in NewerOnes(annots, threshold, corrected) <==> a in annots && Passes(a, threshold, corrected)
  {
    if |annots| > 0 {
      var n := |annots| - 1;
      NewerOnesMembers(annots[..n], threshold, corrected);
      assert annots == annots[..n] + [annots[n]];
    }
  }

  /**
   * In a report, the rows are those of the counted annotations that pass
   * the test against the date, so there are no more of them than the total.
   */
  lemma ReportRows(annots: seq<HpoAnnotation>, g: Arrays, idx: map<string, nat>, tid: TermId, threshold: Tm, corrected: bool)
    ensures var counted := Counted(annots, g, idx, tid);
      |Rows(NewerOnes(counted, threshold, corrected), corrected)| == |NewerOnes(counted, threshold, corrected)| <= |counted| <= |annots|
    ensures forall a :: a in NewerOnes(Counted(annots, g, idx, tid), threshold, corrected) <==>
      a in annots && IsOmim(a) && Descends(g, idx, a.hpoId, tid) && Passes(a, threshold, corrected)
  {
    CountedMembers(annots, g, idx, tid);
    NewerOnesMembers(Counted(annots, g, idx, tid), threshold, corrected);
  }

  /**
   * AnnotationCommand::execute: 0 without an hp.json path, 1 without a
   * term id or a date, otherwise the report is written and the result is 0.
   */
  method Execute(hpJson: string, termid: string, date: string, contents: Option<string>, onto: Ontology, ghost rank: seq<nat>, corrected: bool)
    returns (r: Result<int>, lines: seq<string>)
    requires onto.Valid() && Acyclic(onto.EdgeArrays(), |onto.currentTermIds|, IS_A, rank)
    ensures hpJson == "" ==> r == Ok(0) && lines == []
    ensures hpJson != "" && (termid == "" || date == "") ==> r == Ok(1) && lines == []
    ensures hpJson != "" && termid != "" && date != "" ==>
      match DescendantsReport(date, termid, contents, onto, corrected)
      case Err(e) => r == Err(e) && lines == []
      case Ok(report) => r == Ok(0) && lines == report
  {
    if hpJson == "" {
      return Ok(0), [];
    }
    if termid == "" {
      return Ok(1), [];
    } else if date == "" {
      return Ok(1), [];
    }
    var report := OutputDescendants(date, termid, contents, onto, rank, corrected);
    if report.Err? {
      return Err(report.error), [];
    }
    r, lines := Ok(0), report.value;
  }
}
