/**
 * PhenopacketCommand::execute (app/phenotoolscommand.cpp): the structural
 * validation of a phenopacket, then, when an ontology is given, its
 * semantic validation appended after it, and the summary written to
 * standard output.
 *
 * Reading the file, the protobuf conversion and the ontology parser are
 * inputs: whether the file could be read, the phenopacket it holds, the errors
 * the parser reported and the ontology it built. Standard output is the
 * sequence of lines written, each followed by a line end.
 */
module PhenotoolsCommand {
  import opened Wrappers
  import opened Strings
  import opened Edges
  import opened Graph
  import opened Phenotools
  import opened Semantic
  import O = Ontology

  const EXIT_FAILURE := 1

  /** operator<< of a Validation: its type in brackets, then its message. */
  function ValidationLine(v: Validation): string {
    (if v.vtype == WARNING then "[WARNING] " else "[ERROR] ") + Message(v)
  }

  /** A printed validation says which of the two types it has, and its message follows that tag. */
  lemma ValidationLineMeaning(v: Validation)
    ensures IsError(v) <==> StartsWith(ValidationLine(v), "[ERROR] ")
    ensures IsWarning(v) <==> StartsWith(ValidationLine(v), "[WARNING] ")
    ensures IsError(v) ==> ValidationLine(v)[8..] == Message(v)
    ensures IsWarning(v) ==> ValidationLine(v)[10..] == Message(v)
  {
    var line := ValidationLine(v);
    if IsError(v) {
      assert line[..8] == "[ERROR] ";
      assert line[1] != "[WARNING] "[1];
    } else {
      assert line[..10] == "[WARNING] ";
      assert line[1] != "[ERROR] "[1];
    }
  }

  /** The summary line for n findings. */
  function IssueSummary(n: nat): string {
    if n == 0 then "No Q/C issues identified!"
    else "#### We identified " + IntToString(n) + SummaryTailText(n)
  }

  /** The text written after the count: " Q/C issue", an "s" when n > 1, then " ####". */
  function SummaryTailText(n: nat): string {
    " Q/C issue" + (if n > 1 then "s" else "") + " ####"
  }

  /** The tail says "issue" for one finding and "issues" for more. */
  lemma SummaryTailTextIs(n: nat)
    ensures n > 1 ==> SummaryTailText(n) == " Q/C issues ####"
    ensures n <= 1 ==> SummaryTailText(n) == " Q/C issue ####"
    ensures |SummaryTailText(n)| == SummaryTail(n)
  {
  }

  /** The length of the fixed text after the count: " Q/C issue ####", with an "s" when n > 1. */
  function SummaryTail(n: nat): nat {
    if n > 1 then 16 else 15
  }

  /**
   * The summary says there is nothing exactly when there is nothing;
   * otherwise the number between "#### We identified " and the fixed tail
   * reads back as n, and the tail says "issue" for one and "issues" for more.
   */
  lemma IssueSummaryMeaning(n: nat)
    ensures IssueSummary(n) == "No Q/C issues identified!" <==> n == 0
    ensures n > 0 ==> StartsWith(IssueSummary(n), "#### We identified ")
    ensures n > 0 ==> (|IssueSummary(n)| >= 19 + SummaryTail(n)
      && PyInt(IssueSummary(n)[19..|IssueSummary(n)| - SummaryTail(n)]) == Some(n))
    ensures n == 1 ==> EndsWith(IssueSummary(n), " Q/C issue ####")
    ensures n > 1 ==> EndsWith(IssueSummary(n), " Q/C issues ####")
  {
    if n > 0 {
      SummaryTailTextIs(n);
      PyIntOfPlainInt(n);
      FramedCount(IssueSummary(n), "#### We identified ", IntToString(n), SummaryTailText(n), n);
      assert IssueSummary(n)[0] != "No Q/C issues identified!"[0];
    }
  }

  /** The parts of head + middle + tail are found back at their offsets, the middle one as a number. */
  lemma FramedCount(line: string, head: string, middle: string, tail: string, n: int)
    requires line == head + middle + tail && PyInt(middle) == Some(n)
    ensures StartsWith(line, head) && EndsWith(line, tail)
    ensures |line| >= |head| + |tail| && PyInt(line[|head|..|line| - |tail|]) == Some(n)
  {
    assert line[..|head|] == head;
    assert line[|line| - |tail|..] == tail;
    assert line[|head|..|line| - |tail|] == middle;
  }

  /** The report after the header: the summary, then one line per finding, in order. */
  function Report(vs: seq<Validation>): (r: seq<string>)
    ensures |r| == |vs| + 1
  {
    [IssueSummary(|vs|)] + Mapped(vs, ValidationLine)
  }

  /** Line k + 1 of the report is finding k, and line 0 is its summary. */
  lemma ReportMeaning(vs: seq<Validation>)
    ensures Report(vs)[0] == IssueSummary(|vs|)
    ensures forall k :: 0 <= k < |vs| ==> Report(vs)[k + 1] == ValidationLine(vs[k])
  {
    MappedMeaning(vs, ValidationLine);
  }

  /** The lines around the path of the phenopacket. */
  function Header(path: string): seq<string> {
    ["", "#### Phenopacket at: " + path + " ####", ""]
  }

  const SkipInfo := "[INFO] path to hp.json not passed, skipping ontology-based validation."

  /** The line semantically_validate writes once its findings are complete. */
  function SemanticInfo(n: nat): string {
    if n == 0 then "[INFO] Semantic validation identified no errors."
    else "[INFO] Semantic validation identified " + IntToString(n) + " issues"
  }

  /** The line says there is nothing exactly when there is nothing; otherwise the number it gives reads back as n. */
  lemma SemanticInfoMeaning(n: nat)
    ensures SemanticInfo(n) == "[INFO] Semantic validation identified no errors." <==> n == 0
    ensures n > 0 ==> StartsWith(SemanticInfo(n), "[INFO] Semantic validation identified ")
    ensures n > 0 ==> EndsWith(SemanticInfo(n), " issues")
    ensures n > 0 ==> |SemanticInfo(n)| >= 38 + 7 && PyInt(SemanticInfo(n)[38..|SemanticInfo(n)| - 7]) == Some(n)
  {
    if n > 0 {
      PyIntOfPlainInt(n);
      FramedCount(SemanticInfo(n), "[INFO] Semantic validation identified ", IntToString(n), " issues", n);
      CountedInfoDiffers(SemanticInfo(n));
    }
  }

  lemma CountedInfoDiffers(line: string)
    requires EndsWith(line, " issues")
    ensures line != "[INFO] Semantic validation identified no errors."
  {
    var none := "[INFO] Semantic validation identified no errors.";
    assert line[|line| - 1] == 's' && none[|none| - 1] == '.';
  }

  /** The exit code and the lines written to standard output. */
  datatype Outcome = Outcome(code: int, out: seq<string>)

  /**
   * PhenopacketCommand::execute as written. An unreadable file ends it
   * with EXIT_FAILURE before anything is written. The phenopacket checked
   * is the one the Phenopacket constructor stores, and its structural
   * check is Phenopacket::validate as written. Without an hp.json path
   * the structural findings are computed but not reported. A parser error
   * ends the program with exit(1), which flushes the header already
   * written to standard output. Otherwise the semantic findings, with
   * the metadata prefixes collected as written, follow the structural
   * ones; semantically_validate writes its count line, and the report
   * lists all findings. validation is the list the command holds when it
   * returns.
   */
  method Execute(path: string, readable: bool, p: Phenopacket, hpJsonPath: string,
                 parserErrors: seq<string>, onto: O.Ontology, ghost rank: seq<nat>)
    returns (r: Result<Outcome>, validation: seq<Validation>)
    requires onto.Valid() && Acyclic(onto.EdgeArrays(), |onto.currentTermIds|, IS_A, rank)
    ensures !readable ==> r == Ok(Outcome(EXIT_FAILURE, [])) && validation == []
    ensures readable && hpJsonPath == "" ==> r == Ok(Outcome(0, Header(path) + [SkipInfo]))
    ensures readable && hpJsonPath == "" ==> validation == AsWrittenPhenopacketFindings(StoredPhenopacket(p))
    ensures readable && hpJsonPath != "" && parserErrors != [] ==> r == Ok(Outcome(1, Header(path)))
    ensures readable && hpJsonPath != "" && parserErrors == [] ==>
      var sem := SemanticCheck(StoredPhenopacket(p), onto.EdgeArrays(), onto.termidToIndex, onto.termMap, false);
      (sem.Err? ==> r == Err(sem.error))
      && (sem.Ok? ==>
            r == Ok(Outcome(0, Header(path) + [SemanticInfo(|sem.value|)] + Report(validation)))
            && validation == AsWrittenPhenopacketFindings(StoredPhenopacket(p)) + sem.value)
  {
    if !readable {
      return Ok(Outcome(EXIT_FAILURE, [])), [];
    }
    var stored := StoredPhenopacket(p);
    validation := AsWrittenValidatePhenopacket(stored);
    if hpJsonPath == "" {
      return Ok(Outcome(0, Header(path) + [SkipInfo])), validation;
    }
    if parserErrors != [] {
      return Ok(Outcome(1, Header(path))), validation;
    }
    var semvalidation := SemanticallyValidate(stored, onto, rank, false);
    if semvalidation.Err? {
      return Err(semvalidation.error), validation;
    }
    validation := validation + semvalidation.value;
    r := Ok(Outcome(0, Header(path) + [SemanticInfo(|semvalidation.value|)] + Report(validation)));
  }

  /**
   * PhenopacketCommand::execute corrected: the phenopacket is checked as
   * read, by Phenopacket::validate as intended, and the metadata prefixes
   * are collected with the zygosity guard and the disease read corrected.
   */
  method CorrectedExecute(path: string, readable: bool, p: Phenopacket, hpJsonPath: string,
                          parserErrors: seq<string>, onto: O.Ontology, ghost rank: seq<nat>)
    returns (r: Result<Outcome>, validation: seq<Validation>)
    requires onto.Valid() && Acyclic(onto.EdgeArrays(), |onto.currentTermIds|, IS_A, rank)
    ensures !readable ==> r == Ok(Outcome(EXIT_FAILURE, [])) && validation == []
    ensures readable && hpJsonPath == "" ==> r == Ok(Outcome(0, Header(path) + [SkipInfo]))
    ensures readable && hpJsonPath == "" ==> (validation == [] <==> WellFormedPhenopacket(p))
    ensures readable && hpJsonPath != "" && parserErrors != [] ==> r == Ok(Outcome(1, Header(path)))
    ensures readable && hpJsonPath != "" && parserErrors == [] ==>
      var sem := SemanticCheck(p, onto.EdgeArrays(), onto.termidToIndex, onto.termMap, true);
      (sem.Err? ==> r == Err(sem.error))
      && (sem.Ok? ==>
            r == Ok(Outcome(0, Header(path) + [SemanticInfo(|sem.value|)] + Report(validation)))
            && |sem.value| <= |validation|
            && validation[|validation| - |sem.value|..] == sem.value
            && (validation[..|validation| - |sem.value|] == [] <==> WellFormedPhenopacket(p)))
  {
    if !readable {
      return Ok(Outcome(EXIT_FAILURE, [])), [];
    }
    validation := ValidatePhenopacket(p);
    if hpJsonPath == "" {
      return Ok(Outcome(0, Header(path) + [SkipInfo])), validation;
    }
    if parserErrors != [] {
      return Ok(Outcome(1, Header(path))), validation;
    }
    var semvalidation := SemanticallyValidate(p, onto, rank, true);
    if semvalidation.Err? {
      return Err(semvalidation.error), validation;
    }
    ghost var structural := validation;
    validation := validation + semvalidation.value;
    assert validation[..|structural|] == structural;
    assert validation[|structural|..] == semvalidation.value;
    r := Ok(Outcome(0, Header(path) + [SemanticInfo(|semvalidation.value|)] + Report(validation)));
  }
}
