/** The `categories` dict of countHpoBySubontology.py. */
module Categories {
  /** The keys of the `categories` dict, in insertion order. */
  const CategoryKeys: seq<string> := [
    "ABNORMAL_CELLULAR", "BLOOD", "CONNECTIVE_TISSUE", "HEAD_AND_NECK", "LIMBS",
    "METABOLISM", "PRENATAL", "BREAST", "CARDIOVASCULAR", "DIGESTIVE",
    "EAR", "ENDOCRINE", "EYE", "GENITOURINARY", "IMMUNOLOGY",
    "INTEGUMENT", "MUSCLE", "NERVOUS_SYSTEM", "RESPIRATORY", "SKELETAL",
    "THORACIC_CAVITY", "VOICE", "CONSTITUTIONAL", "GROWTH", "NEOPLASM"]

  /** The HPO ids the keys map to, in the same order (the same 25 ids in the same order as createGGplotFile.py). */
  const CategoryIds: seq<string> := [
    "HP:0025354", "HP:0001871", "HP:0003549", "HP:0000152", "HP:0040064",
    "HP:0001939", "HP:0001197", "HP:0000769", "HP:0001626", "HP:0025031",
    "HP:0000598", "HP:0000818", "HP:0000478", "HP:0000119", "HP:0002715",
    "HP:0001574", "HP:0003011", "HP:0000707", "HP:0002086", "HP:0000924",
    "HP:0045027", "HP:0001608", "HP:0025142", "HP:0001507", "HP:0002664"]

  predicate Distinct(xs: seq<string>) {
    forall i, j :: 0 <= i < j < |xs| ==> xs[i] != xs[j]
  }

  /** The registry has 25 entries and no id twice. */
  lemma RegistryShape()
    ensures |CategoryKeys| == |CategoryIds| == 25
    ensures Distinct(CategoryIds)
  {
    IdCodes();
    CodesDistinct();
    forall i, j | 0 <= i < j < |CategoryIds| ensures CategoryIds[i] != CategoryIds[j] {
      assert Code(CategoryIds[i]) == IdTails[i] != IdTails[j] == Code(CategoryIds[j]);
    }
  }

  /** The last three digits of an id of ten characters. */
  function Code(id: string): int
    requires |id| == 10
  {
    (id[7] as int - '0' as int) * 100 + (id[8] as int - '0' as int) * 10 + (id[9] as int - '0' as int)
  }

  /** The last three digits of each registered id, in registry order. */
  const IdTails: seq<int> := [
    354, 871, 549, 152, 64, 939, 197, 769, 626, 31, 598, 818, 478,
    119, 715, 574, 11, 707, 86, 924, 27, 608, 142, 507, 664]

  lemma IdCodes()
    ensures |CategoryIds| == |IdTails| == 25
    ensures forall i :: 0 <= i < 25 ==> |CategoryIds[i]| == 10 && Code(CategoryIds[i]) == IdTails[i]
  {
  }

  /** No two registered ids end in the same three digits. */
  lemma CodesDistinct()
    ensures forall i, j :: 0 <= i < j < |IdTails| ==> IdTails[i] != IdTails[j]
  {
  }

  /** No key holds a tab, the separator of the rows the script writes. */
  lemma KeysTabFree()
    ensures forall i :: 0 <= i < |CategoryKeys| ==> '\t' !in CategoryKeys[i]
  {
  }

  /** No id holds a tab either. */
  lemma IdsTabFree()
    ensures forall i :: 0 <= i < |CategoryIds| ==> '\t' !in CategoryIds[i]
  {
  }

}

/**
 * countHpoBySubontology.py: for each of 25 top-level HPO categories, run the
 * phenotools binary, read the summary lines of the file it writes, and
 * write one tab-separated row of counts per category.
 */
module CountScript {
  import opened Wrappers
  import opened Strings
  import opened Categories

  // ------------------------------------------------------- Python pieces

  /** int(text): an optionally signed base-10 number with whitespace around it, otherwise a ValueError. */
  function Int(text: string): (r: Result<int>)
    ensures r.Ok? <==> PyInt(text).Some?
  {
    match PyInt(text)
    case None => Err(ValueError("invalid literal for int() with base 10"))
    case Some(n) => Ok(n)
  }

  /** int() of a number written by str() is the number. */
  lemma IntOfIntToString(n: int)
    ensures Int(IntToString(n)) == Ok(n)
  {
    PyIntOfPlainInt(n);
  }

  /** line.rstrip('\n').split(':')[1]: an IndexError when the line holds no ':'. */
  function ColonField(line: string): (r: Result<string>)
    ensures r.Err? <==> ':' !in RStripChar(line, '\n')
  {
    var parts := PySplit(RStripChar(line, '\n'), ':');
    if |parts| < 2 then Err(IndexError("list index out of range")) else Ok(parts[1])
  }

  /**
   * `line.rstrip('\n').rsplit(':', 1)[1]`: the field after the LAST ':',
   * which is where the count of a summary line stands even when the date
   * or the label before it holds a ':'.
   */
  function LastColonField(line: string): (r: Result<string>)
    ensures r.Err? <==> ':' !in RStripChar(line, '\n')
    ensures var s := RStripChar(line, '\n');
      r.Ok? ==> ':' !in r.value && |r.value| < |s| && s[|s| - |r.value| - 1] == ':' && s[|s| - |r.value|..] == r.value
  {
    var s := RStripChar(line, '\n');
    match FindLastChar(s, ':')
    case None => Err(IndexError("list index out of range"))
    case Some(i) => Ok(s[i + 1..])
  }

  /** "%s" of an optional command-line value: None is written as "None". */
  function PyStr(v: Option<string>): string {
    if v.Some? then v.value else "None"
  }

  /**
   * A Python loop over the lines of a file that updates some variables per
   * line: the variables after the lines, or the exception the first bad
   * line raises.
   */
  function Scan<S>(st: S, lines: seq<string>, step: (S, string) -> Result<S>): Result<S> {
    if |lines| == 0 then Ok(st)
    else match Scan(st, lines[..|lines| - 1], step)
      case Err(e) => Err(e)
      case Ok(s) => step(s, lines[|lines| - 1])
  }

  lemma ScanStep<S>(st: S, lines: seq<string>, k: nat, step: (S, string) -> Result<S>)
    requires k < |lines| && Scan(st, lines[..k], step).Ok?
    ensures Scan(st, lines[..k + 1], step) == step(Scan(st, lines[..k], step).value, lines[k])
  {
    assert lines[..k + 1][..k] == lines[..k];
  }

  /** Once a line raises, the scan of the whole file raises the same. */
  lemma {:induction false} ScanFailurePersists<S>(st: S, lines: seq<string>, i: nat, step: (S, string) -> Result<S>)
    requires i <= |lines| && Scan(st, lines[..i], step).Err?
    ensures Scan(st, lines, step) == Scan(st, lines[..i], step)
    decreases |lines| - i
  {
    if i < |lines| {
      assert lines[..i + 1][..i] == lines[..i];
      ScanFailurePersists(st, lines, i + 1, step);
    } else {
      assert lines[..i] == lines;
    }
  }

  /** Reading two parts of a file one after the other is reading the whole file. */
  lemma {:induction false} ScanAppend<S>(st: S, a: seq<string>, b: seq<string>, step: (S, string) -> Result<S>)
    ensures Scan(st, a + b, step) == match Scan(st, a, step) case Err(e) => Err(e) case Ok(s) => Scan(s, b, step)
  {
    if |b| == 0 {
      assert a + b == a;
    } else {
      ScanAppend(st, a, b[..|b| - 1], step);
      assert (a + b)[..|a + b| - 1] == a + b[..|b| - 1];
    }
  }

  /** Lines that change no variable leave the variables as they were. */
  lemma {:induction false} ScanUnchanged<S>(st: S, lines: seq<string>, step: (S, string) -> Result<S>)
    requires forall k :: 0 <= k < |lines| ==> step(st, lines[k]) == Ok(st)
    ensures Scan(st, lines, step) == Ok(st)
  {
    if |lines| > 0 {
      ScanUnchanged(st, lines[..|lines| - 1], step);
    }
  }

  /** A file of one line is read by one step. */
  lemma ScanOne<S>(st: S, line: string, step: (S, string) -> Result<S>)
    ensures Scan(st, [line], step) == step(st, line)
  {
    assert [line][..0] == [];
  }

  /** A file of two lines: the second is read from the variables the first leaves. */
  lemma ScanTwo<S>(st: S, first: string, second: string, step: (S, string) -> Result<S>)
    ensures Scan(st, [first, second], step) == match step(st, first) case Err(e) => Err(e) case Ok(s) => step(s, second)
  {
    assert [first, second][..1] == [first];
    ScanOne(st, first, step);
  }

  // ---------------------------------------------------- run_phenotools

  /** The command run_phenotools runs, and prints, for one category. */
  function HpoCommandLine(date: string, term: string): string {
    "../phenotools hpo --hp ../hp.json --date " + date + " --term " + term + " --out tmp.txt"
  }

  /** The four variables run_phenotools fills while it reads tmp.txt; None stands for Python's None. */
  datatype HpoScan = HpoScan(id: Option<string>, name: Option<string>, createdAfter: Option<int>, total: Option<int>)

  /** One line of tmp.txt: the first of the three prefixes it starts with decides which variables it overwrites. */
  function HpoStep(st: HpoScan, line: string): Result<HpoScan> {
    if StartsWith(line, "#Subontology") then
      var myline := Strip(Drop(line, 13));
      Ok(st.(id := Some(Take(myline, 11)), name := Some(Strip(RemoveChar(Drop(myline, 12), ')')))))
    else if StartsWith(line, "#Created after") then
      match ColonField(line)
      case Err(e) => Err(e)
      case Ok(field) =>
        match Int(Strip(field))
        case Err(e) => Err(e)
        case Ok(n) => Ok(st.(createdAfter := Some(n)))
    else if StartsWith(line, "#Total") then
      match ColonField(line)
      case Err(e) => Err(e)
      case Ok(field) =>
        match Int(Strip(field))
        case Err(e) => Err(e)
        case Ok(n) => Ok(st.(total := Some(n)))
    else Ok(st)
  }

  const Unset := HpoScan(None, None, None, None)

  /** What run_phenotools returns for one category. */
  datatype HpoRecord = HpoRecord(id: string, name: string, createdAfter: int, total: int)

  /** The record read from the lines of tmp.txt, with the ValueErrors of the missing fields in their order. */
  function HpoRecordOf(lines: seq<string>): Result<HpoRecord> {
    match Scan(Unset, lines, HpoStep)
    case Err(e) => Err(e)
    case Ok(st) =>
      if st.id.None? then Err(ValueError("Could not find subontologyId"))
      else if st.name.None? then Err(ValueError("Could not find subontologyName"))
      else if st.createdAfter.None? then Err(ValueError("Could not find createdAfter"))
      else if st.total.None? then Err(ValueError("Could not find total"))
      else Ok(HpoRecord(st.id.value, st.name.value, st.createdAfter.value, st.total.value))
  }

  /** Some line of the file starts with p. */
  predicate HasLine(lines: seq<string>, p: string) {
    exists k :: 0 <= k < |lines| && StartsWith(lines[k], p)
  }

  /** A line starts with p exactly when its last line does or one before it does. */
  lemma HasLineLast(lines: seq<string>, p: string)
    requires |lines| > 0
    ensures HasLine(lines, p) <==> HasLine(lines[..|lines| - 1], p) || StartsWith(lines[|lines| - 1], p)
  {
    var init := lines[..|lines| - 1];
    if HasLine(init, p) {
      var k :| 0 <= k < |init| && StartsWith(init[k], p);
      assert lines[k] == init[k];
    }
    if HasLine(lines, p) && !StartsWith(lines[|lines| - 1], p) {
      var k :| 0 <= k < |lines| && StartsWith(lines[k], p);
      assert init[k] == lines[k];
    }
  }

  /** Two prefixes that differ at position i never start the same line. */
  lemma PrefixesExclusive(line: string, p: string, q: string, i: nat)
    requires i < |p| && i < |q| && p[i] != q[i] && StartsWith(line, p)
    ensures !StartsWith(line, q)
  {
    assert line[..|p|][i] == p[i];
  }

  /** Which prefix run_phenotools finds at the head of a line, checked in its order: 0, 1 or 2, or 3 for none. */
  function HpoLineKind(line: string): nat {
    if StartsWith(line, "#Subontology") then 0
    else if StartsWith(line, "#Created after") then 1
    else if StartsWith(line, "#Total") then 2
    else 3
  }

  /** No line starts with two of the prefixes, so the kind of a line says which one it starts with. */
  lemma HpoLineKindPrefix(line: string)
    ensures HpoLineKind(line) == 0 <==> StartsWith(line, "#Subontology")
    ensures HpoLineKind(line) == 1 <==> StartsWith(line, "#Created after")
    ensures HpoLineKind(line) == 2 <==> StartsWith(line, "#Total")
  {
    if StartsWith(line, "#Subontology") {
      PrefixesExclusive(line, "#Subontology", "#Created after", 1);
      PrefixesExclusive(line, "#Subontology", "#Total", 1);
    } else if StartsWith(line, "#Created after") {
      PrefixesExclusive(line, "#Created after", "#Total", 1);
    }
  }

  /** Some line of the file is of kind c. */
  predicate HasKind(lines: seq<string>, c: nat) {
    exists k :: 0 <= k < |lines| && HpoLineKind(lines[k]) == c
  }

  /** The file has a line of kind c exactly when it has a line starting with that kind's prefix. */
  lemma HasKindHasLine(lines: seq<string>)
    ensures HasKind(lines, 0) <==> HasLine(lines, "#Subontology")
    ensures HasKind(lines, 1) <==> HasLine(lines, "#Created after")
    ensures HasKind(lines, 2) <==> HasLine(lines, "#Total")
  {
    forall k | 0 <= k < |lines|
      ensures (HpoLineKind(lines[k]) == 0 <==> StartsWith(lines[k], "#Subontology"))
        && (HpoLineKind(lines[k]) == 1 <==> StartsWith(lines[k], "#Created after"))
        && (HpoLineKind(lines[k]) == 2 <==> StartsWith(lines[k], "#Total"))
    {
      HpoLineKindPrefix(lines[k]);
    }
  }

  /** A line is of kind c exactly when its last line is or one before it is. */
  lemma HasKindLast(lines: seq<string>, c: nat)
    requires |lines| > 0
    ensures HasKind(lines, c) <==> HasKind(lines[..|lines| - 1], c) || HpoLineKind(lines[|lines| - 1]) == c
  {
    var init := lines[..|lines| - 1];
    if HasKind(init, c) {
      var k :| 0 <= k < |init| && HpoLineKind(init[k]) == c;
      assert lines[k] == init[k];
    }
    if HasKind(lines, c) && HpoLineKind(lines[|lines| - 1]) != c {
      var k :| 0 <= k < |lines| && HpoLineKind(lines[k]) == c;
      assert init[k] == lines[k];
    }
  }

  /** One line of tmp.txt sets a variable exactly when it was set or the line is of that variable's kind. */
  lemma HpoStepSets(st: HpoScan, line: string)
    requires HpoStep(st, line).Ok?
    ensures var st' := HpoStep(st, line).value;
      (st'.id.Some? <==> st.id.Some? || HpoLineKind(line) == 0)
      && (st'.name.Some? <==> st.name.Some? || HpoLineKind(line) == 0)
      && (st'.createdAfter.Some? <==> st.createdAfter.Some? || HpoLineKind(line) == 1)
      && (st'.total.Some? <==> st.total.Some? || HpoLineKind(line) == 2)
  {
    match HpoLineKind(line)
    case 0 =>
    case 1 =>
    case 2 =>
    case _ => assert HpoStep(st, line) == Ok(st);
  }

  /**
   * After a file that raises nothing, each variable of run_phenotools is
   * set exactly when some line is of its kind; the name is set together
   * with the id.
   */
  lemma {:induction false} HpoScanSetsFrom(lines: seq<string>)
    requires Scan(Unset, lines, HpoStep).Ok?
    ensures var st := Scan(Unset, lines, HpoStep).value;
      (st.id.Some? <==> HasKind(lines, 0))
      && (st.name.Some? <==> HasKind(lines, 0))
      && (st.createdAfter.Some? <==> HasKind(lines, 1))
      && (st.total.Some? <==> HasKind(lines, 2))
  {
    if |lines| > 0 {
      var init := lines[..|lines| - 1];
      HpoScanSetsFrom(init);
      HpoStepSets(Scan(Unset, init, HpoStep).value, lines[|lines| - 1]);
      HasKindLast(lines, 0);
      HasKindLast(lines, 1);
      HasKindLast(lines, 2);
    }
  }

  /**
   * run_phenotools returns a record exactly when tmp.txt has a
   * "#Subontology", a "#Created after" and a "#Total" line; otherwise its
   * ValueError names the first field missing, in the order id,
   * createdAfter, total (the name is never missing without the id).
   */
  lemma HpoRecordOfMeaning(lines: seq<string>)
    requires Scan(Unset, lines, HpoStep).Ok?
    ensures HpoRecordOf(lines).Ok? <==>
      HasLine(lines, "#Subontology") && HasLine(lines, "#Created after") && HasLine(lines, "#Total")
    ensures !HasLine(lines, "#Subontology") ==> HpoRecordOf(lines) == Err(ValueError("Could not find subontologyId"))
    ensures HasLine(lines, "#Subontology") && !HasLine(lines, "#Created after") ==>
      HpoRecordOf(lines) == Err(ValueError("Could not find createdAfter"))
    ensures HasLine(lines, "#Subontology") && HasLine(lines, "#Created after") && !HasLine(lines, "#Total") ==>
      HpoRecordOf(lines) == Err(ValueError("Could not find total"))
  {
    HpoScanSetsFrom(lines);
    HasKindHasLine(lines);
  }

  /** What opening tmp.txt gives: its lines, or FileNotFoundError. */
  function TmpLines(contents: Option<string>): Result<seq<string>> {
    if contents.None? then Err(FileNotFound("tmp.txt")) else Ok(PyLines(contents.value))
  }

  /**
   * run_phenotools(date, term): the command it runs and what it returns;
   * `run` gives the contents of tmp.txt once the command has run (None
   * when there is no such file).
   */
  method RunPhenotools(date: string, term: string, run: string -> Option<string>)
    returns (command: string, r: Result<HpoRecord>)
    ensures command == HpoCommandLine(date, term)
    ensures r == HpoRecords(date, run)(term)
  {
    command := HpoCommandLine(date, term);
    var contents := run(command);
    if contents.None? {
      return command, Err(FileNotFound("tmp.txt"));
    }
    var lines := PyLines(contents.value);
    var subontologyId: Option<string> := None;
    var subontologyName: Option<string> := None;
    var createdAfter: Option<int> := None;
    var total: Option<int> := None;
    for k := 0 to |lines|
      invariant Scan(Unset, lines[..k], HpoStep) == Ok(HpoScan(subontologyId, subontologyName, createdAfter, total))
    {
      ScanStep(Unset, lines, k, HpoStep);
      var line := lines[k];
      if StartsWith(line, "#Subontology") {
        var myline := Strip(Drop(line, 13));
        subontologyId := Some(Take(myline, 11));
        myline := Drop(myline, 12);
        subontologyName := Some(Strip(RemoveChar(myline, ')')));
      } else if StartsWith(line, "#Created after") || StartsWith(line, "#Total") {
        var field := ColonField(line);
        if field.Err? {
          ScanFailurePersists(Unset, lines, k + 1, HpoStep);
          return command, Err(field.error);
        }
        var n := Int(Strip(field.value));
        if n.Err? {
          ScanFailurePersists(Unset, lines, k + 1, HpoStep);
          return command, Err(n.error);
        }
        if StartsWith(line, "#Created after") {
          createdAfter := Some(n.value);
        } else {
          total := Some(n.value);
        }
      }
    }
    assert lines[..|lines|] == lines;
    if subontologyId.None? {
      r := Err(ValueError("Could not find subontologyId"));
    } else if subontologyName.None? {
      r := Err(ValueError("Could not find subontologyName"));
    } else if createdAfter.None? {
      r := Err(ValueError("Could not find createdAfter"));
    } else if total.None? {
      r := Err(ValueError("Could not find total"));
    } else {
      r := Ok(HpoRecord(subontologyId.value, subontologyName.value, createdAfter.value, total.value));
    }
  }

  // ---------------------------------------- run_phenotools_annotations

  /** The command run_phenotools_annotations runs, and prints, for one category. */
  function AnnotCommandLine(annot: string, date: string, enddate: string, term: string): string {
    "../phenotools annotation --hp ../hp.json -a " + annot + " --date " + date + " --enddate " + enddate
      + " --term " + term + " --out tmp.txt"
  }

  /** The two variables run_phenotools_annotations fills. */
  datatype AnnotScan = AnnotScan(createdAfter: Option<int>, total: Option<int>)

  /** One line of tmp.txt in annotation mode; the field is given to int() unstripped. */
  function AnnotStep(st: AnnotScan, line: string): Result<AnnotScan> {
    if StartsWith(line, "#total annotations to") then
      match ColonField(line)
      case Err(e) => Err(e)
      case Ok(field) =>
        match Int(field)
        case Err(e) => Err(e)
        case Ok(n) => Ok(st.(total := Some(n)))
    else if StartsWith(line, "#total annotations newer") then
      match ColonField(line)
      case Err(e) => Err(e)
      case Ok(field) =>
        match Int(field)
        case Err(e) => Err(e)
        case Ok(n) => Ok(st.(createdAfter := Some(n)))
    else Ok(st)
  }

  /** What run_phenotools_annotations returns for one category. */
  datatype AnnotRecord = AnnotRecord(createdAfter: int, total: int)

  /** The record read from the lines of tmp.txt: the total is looked for first. */
  function AnnotRecordOf(lines: seq<string>): Result<AnnotRecord> {
    match Scan(AnnotScan(None, None), lines, AnnotStep)
    case Err(e) => Err(e)
    case Ok(st) =>
      if st.total.None? then Err(ValueError("could not parse total"))
      else if st.createdAfter.None? then Err(ValueError("could not parse createdAfter"))
      else Ok(AnnotRecord(st.createdAfter.value, st.total.value))
  }

  /** One line in annotation mode sets a variable exactly when it was set or the line starts with that variable's prefix. */
  lemma AnnotStepSets(st: AnnotScan, line: string)
    requires AnnotStep(st, line).Ok?
    ensures var st' := AnnotStep(st, line).value;
      (st'.total.Some? <==> st.total.Some? || StartsWith(line, "#total annotations to"))
      && (st'.createdAfter.Some? <==> st.createdAfter.Some? || StartsWith(line, "#total annotations newer"))
  {
    if StartsWith(line, "#total annotations to") {
      PrefixesExclusive(line, "#total annotations to", "#total annotations newer", 19);
    }
  }

  /** After a file that raises nothing, each variable is set exactly when some line starts with its prefix. */
  lemma {:induction false} AnnotScanSetsFrom(lines: seq<string>)
    requires Scan(AnnotScan(None, None), lines, AnnotStep).Ok?
    ensures var st := Scan(AnnotScan(None, None), lines, AnnotStep).value;
      (st.total.Some? <==> HasLine(lines, "#total annotations to"))
      && (st.createdAfter.Some? <==> HasLine(lines, "#total annotations newer"))
  {
    if |lines| > 0 {
      var init := lines[..|lines| - 1];
      AnnotScanSetsFrom(init);
      AnnotStepSets(Scan(AnnotScan(None, None), init, AnnotStep).value, lines[|lines| - 1]);
      HasLineLast(lines, "#total annotations to");
      HasLineLast(lines, "#total annotations newer");
    }
  }

  /**
   * run_phenotools_annotations returns the two counts exactly when tmp.txt
   * has both summary lines; otherwise its ValueError names the total
   * first.
   */
  lemma AnnotRecordOfMeaning(lines: seq<string>)
    requires Scan(AnnotScan(None, None), lines, AnnotStep).Ok?
    ensures AnnotRecordOf(lines).Ok? <==> HasLine(lines, "#total annotations to") && HasLine(lines, "#total annotations newer")
    ensures !HasLine(lines, "#total annotations to") ==> AnnotRecordOf(lines) == Err(ValueError("could not parse total"))
    ensures HasLine(lines, "#total annotations to") && !HasLine(lines, "#total annotations newer") ==>
      AnnotRecordOf(lines) == Err(ValueError("could not parse createdAfter"))
  {
    AnnotScanSetsFrom(lines);
  }

  /** run_phenotools_annotations(date, enddate, term, annot). */
  method RunPhenotoolsAnnotations(date: string, enddate: string, term: string, annot: string, run: string -> Option<string>)
    returns (command: string, r: Result<AnnotRecord>)
    ensures command == AnnotCommandLine(annot, date, enddate, term)
    ensures r == AnnotRecords(date, enddate, annot, run)(term)
  {
    command := AnnotCommandLine(annot, date, enddate, term);
    var contents := run(command);
    if contents.None? {
      return command, Err(FileNotFound("tmp.txt"));
    }
    var lines := PyLines(contents.value);
    var createdAfter: Option<int> := None;
    var total: Option<int> := None;
    for k := 0 to |lines|
      invariant Scan(AnnotScan(None, None), lines[..k], AnnotStep) == Ok(AnnotScan(createdAfter, total))
    {
      ScanStep(AnnotScan(None, None), lines, k, AnnotStep);
      var line := lines[k];
      if StartsWith(line, "#total annotations to") || StartsWith(line, "#total annotations newer") {
        var field := ColonField(line);
        if field.Err? {
          ScanFailurePersists(AnnotScan(None, None), lines, k + 1, AnnotStep);
          return command, Err(field.error);
        }
        var n := Int(field.value);
        if n.Err? {
          ScanFailurePersists(AnnotScan(None, None), lines, k + 1, AnnotStep);
          return command, Err(n.error);
        }
        if StartsWith(line, "#total annotations to") {
          total := Some(n.value);
        } else {
          createdAfter := Some(n.value);
        }
      }
    }
    assert lines[..|lines|] == lines;
    if total.None? {
      r := Err(ValueError("could not parse total"));
    } else if createdAfter.None? {
      r := Err(ValueError("could not parse createdAfter"));
    } else {
      r := Ok(AnnotRecord(createdAfter.value, total.value));
    }
  }

  // ------------------------------------------------------- the reports

  /** The column line both reports write after their three header lines. */
  const CountsColumns := "subontology.id\tsubontology.label\tcreated.after\ttotal"

  /** Four values separated by tabs, as "%s\t%s\t%s\t%s" writes them. */
  function CountsRow(id: string, key: string, createdAfter: int, total: int): string {
    Join([id, key, IntToString(createdAfter), IntToString(total)], '\t')
  }

  /** The four fields of a row read back by split('\t'). */
  lemma CountsRowFields(id: string, key: string, createdAfter: int, total: int)
    requires '\t' !in id && '\t' !in key
    ensures PySplit(CountsRow(id, key, createdAfter, total), '\t') == [id, key, IntToString(createdAfter), IntToString(total)]
  {
    IntToStringChars(createdAfter, '\t');
    IntToStringChars(total, '\t');
    PySplitJoin([id, key, IntToString(createdAfter), IntToString(total)], '\t');
  }

  /** A registry: keys and ids of the same length, in insertion order. */
  predicate Parallel(keys: seq<string>, ids: seq<string>) {
    |keys| == |ids|
  }

  /**
   * The loop of both report writers over the first n entries of the
   * registry: `record` is what reading the output of the tool for an id
   * gives, `row` the line written for an entry and its record; the first
   * exception ends the loop.
   */
  function CountRows<R>(keys: seq<string>, ids: seq<string>, n: nat, record: string -> Result<R>,
                        row: (string, string, R) -> string): (seq<string>, Option<Failure>)
    requires Parallel(keys, ids) && n <= |ids|
  {
    if n == 0 then ([], None)
    else
      var (rows, err) := CountRows(keys, ids, n - 1, record, row);
      if err.Some? then (rows, err)
      else match record(ids[n - 1])
        case Err(e) => (rows, Some(e))
        case Ok(rec) => (rows + [row(ids[n - 1], keys[n - 1], rec)], None)
  }

  /**
   * Up to the first entry whose record fails, one row per entry in
   * registry order, written from that entry and its record; the exception
   * is the one of that first failing entry.
   */
  lemma {:induction false} CountRowsMeaning<R>(keys: seq<string>, ids: seq<string>, n: nat, record: string -> Result<R>,
                                               row: (string, string, R) -> string)
    requires Parallel(keys, ids) && n <= |ids|
    ensures var (rows, err) := CountRows(keys, ids, n, record, row);
      |rows| <= n && (err.None? <==> |rows| == n)
      && (err.Some? ==> record(ids[|rows|]) == Err(err.value))
      && forall i :: 0 <= i < |rows| ==> record(ids[i]).Ok? && rows[i] == row(ids[i], keys[i], record(ids[i]).value)
  {
    if n > 0 {
      CountRowsMeaning(keys, ids, n - 1, record, row);
    }
  }

  /** Once an entry fails, no later one adds a row. */
  lemma {:induction false} CountRowsStopped<R>(keys: seq<string>, ids: seq<string>, k: nat, record: string -> Result<R>,
                                               row: (string, string, R) -> string)
    requires Parallel(keys, ids) && k <= |ids| && CountRows(keys, ids, k, record, row).1.Some?
    ensures CountRows(keys, ids, |ids|, record, row) == CountRows(keys, ids, k, record, row)
    decreases |ids| - k
  {
    if k < |ids| {
      CountRowsStopped(keys, ids, k + 1, record, row);
    }
  }

  lemma CountRowsStep<R>(keys: seq<string>, ids: seq<string>, k: nat, record: string -> Result<R>,
                         row: (string, string, R) -> string)
    requires Parallel(keys, ids) && k < |ids| && CountRows(keys, ids, k, record, row).1.None?
    ensures record(ids[k]).Ok? ==> (CountRows(keys, ids, k + 1, record, row)
      == (CountRows(keys, ids, k, record, row).0 + [row(ids[k], keys[k], record(ids[k]).value)], None))
    ensures record(ids[k]).Err? ==> (CountRows(keys, ids, k + 1, record, row)
      == (CountRows(keys, ids, k, record, row).0, Some(record(ids[k]).error)))
  {
  }

  /** The loop of both report writers: the categories in registry order, up to the first exception. */
  method CountLoop<R>(keys: seq<string>, ids: seq<string>, record: string -> Result<R>, row: (string, string, R) -> string)
    returns (rows: seq<string>, err: Option<Failure>)
    requires Parallel(keys, ids)
    ensures (rows, err) == CountRows(keys, ids, |ids|, record, row)
  {
    rows := [];
    for k := 0 to |ids|
      invariant CountRows(keys, ids, k, record, row) == (rows, None)
    {
      CountRowsStep(keys, ids, k, record, row);
      var r := record(ids[k]);
      if r.Err? {
        CountRowsStopped(keys, ids, k + 1, record, row);
        return rows, Some(r.error);
      }
      rows := rows + [row(ids[k], keys[k], r.value)];
    }
    err := None;
  }

  /** What run_phenotools_annotations returns for the category with this id. */
  function AnnotRecordFor(startdate: string, enddate: string, annot: string, run: string -> Option<string>, id: string): Result<AnnotRecord> {
    match TmpLines(run(AnnotCommandLine(annot, startdate, enddate, id)))
    case Err(e) => Err(e)
    case Ok(lines) => AnnotRecordOf(lines)
  }

  function AnnotRecords(startdate: string, enddate: string, annot: string, run: string -> Option<string>): string -> Result<AnnotRecord> {
    id => AnnotRecordFor(startdate, enddate, annot, run, id)
  }

  /** The row of annotcounts.txt: the id, the key, then the two counts. */
  function AnnotRow(id: string, key: string, rec: AnnotRecord): string {
    CountsRow(id, key, rec.createdAfter, rec.total)
  }

  /** The three header lines and the column line of annotcounts.txt. */
  function AnnotHeader(startdate: string, enddate: Option<string>): seq<string> {
    ["#Annotations", "#start-date:" + startdate, "#end-date:" + PyStr(enddate), CountsColumns]
  }

  /**
   * run_annotations over a registry: the lines of annotcounts.txt, and the
   * exception that stopped the script after the rows already written, if
   * any.
   */
  method RunAnnotations(keys: seq<string>, ids: seq<string>, startdate: string, enddate: Option<string>, annotfile: string,
                        run: string -> Option<string>)
    returns (lines: seq<string>, err: Option<Failure>)
    requires Parallel(keys, ids)
    ensures var (rows, e) := CountRows(keys, ids, |ids|, AnnotRecords(startdate, PyStr(enddate), annotfile, run), AnnotRow);
      lines == AnnotHeader(startdate, enddate) + rows && err == e
  {
    var rows;
    rows, err := CountLoop(keys, ids, AnnotRecords(startdate, PyStr(enddate), annotfile, run), AnnotRow);
    lines := AnnotHeader(startdate, enddate) + rows;
  }

  /**
   * Every row of annotcounts.txt splits into the id and the key of its
   * category and the two counts read for it, when no key or id holds a tab.
   */
  lemma AnnotRowsFields(keys: seq<string>, ids: seq<string>, record: string -> Result<AnnotRecord>)
    requires Parallel(keys, ids)
    requires forall i :: 0 <= i < |ids| ==> '\t' !in keys[i] && '\t' !in ids[i]
    ensures |CountRows(keys, ids, |ids|, record, AnnotRow).0| <= |ids|
    ensures var rows := CountRows(keys, ids, |ids|, record, AnnotRow).0;
      forall i :: 0 <= i < |rows| ==> (record(ids[i]).Ok? && PySplit(rows[i], '\t')
        == [ids[i], keys[i], IntToString(record(ids[i]).value.createdAfter), IntToString(record(ids[i]).value.total)])
  {
    CountRowsMeaning(keys, ids, |ids|, record, AnnotRow);
    var rows := CountRows(keys, ids, |ids|, record, AnnotRow).0;
    forall i | 0 <= i < |rows|
      ensures PySplit(rows[i], '\t')
        == [ids[i], keys[i], IntToString(record(ids[i]).value.createdAfter), IntToString(record(ids[i]).value.total)]
    {
      var rec := record(ids[i]).value;
      CountsRowFields(ids[i], keys[i], rec.createdAfter, rec.total);
    }
  }

  /** run_phenotools_hpo as written: the first write succeeds, the second reads a global `date` the script never defines. */
  method AsWrittenRunPhenotoolsHpo() returns (lines: seq<string>, err: Option<Failure>)
    ensures lines == ["#Terms"] && err == Some(NameError("date"))
  {
    lines := ["#Terms"];
    err := Some(NameError("date"));
  }

  /** What run_phenotools returns for the category with this id. */
  function HpoRecordFor(date: string, run: string -> Option<string>, id: string): Result<HpoRecord> {
    match TmpLines(run(HpoCommandLine(date, id)))
    case Err(e) => Err(e)
    case Ok(lines) => HpoRecordOf(lines)
  }

  function HpoRecords(date: string, run: string -> Option<string>): string -> Result<HpoRecord> {
    id => HpoRecordFor(date, run, id)
  }

  /** The row of hpocounts.txt: the id and the name read back, then the two counts. */
  function HpoRow(id: string, key: string, rec: HpoRecord): string {
    CountsRow(rec.id, rec.name, rec.createdAfter, rec.total)
  }

  /** The header of hpocounts.txt: the same date as start and end. */
  function HpoHeader(date: string): seq<string> {
    ["#Terms", "#start-date:" + date, "#end-date:" + date, CountsColumns]
  }

  /** run_phenotools_hpo with the date as a parameter, as run_annotations takes its dates. */
  method RunPhenotoolsHpo(keys: seq<string>, ids: seq<string>, date: string, run: string -> Option<string>)
    returns (lines: seq<string>, err: Option<Failure>)
    requires Parallel(keys, ids)
    ensures var (rows, e) := CountRows(keys, ids, |ids|, HpoRecords(date, run), HpoRow);
      lines == HpoHeader(date) + rows && err == e
  {
    var rows;
    rows, err := CountLoop(keys, ids, HpoRecords(date, run), HpoRow);
    lines := HpoHeader(date) + rows;
  }

  // ----------------------------------------------------------------- main

  /** A command-line option that was not given or was given empty. */
  predicate Missing(v: Option<string>) {
    v.None? || |v.value| == 0
  }

  /** What main does: an error message and nothing run, or the lines of annotcounts.txt and the exception that ended them. */
  datatype Outcome = Refused(message: string) | Ran(lines: seq<string>, err: Option<Failure>)

  /**
   * main(date, enddate, hpo, annot): the three required options are
   * checked in order; then the annotation counts of the registry are
   * written (the hp.json path given with --hpo is not used: the commands
   * name ../hp.json).
   */
  method Execute(date: Option<string>, enddate: Option<string>, hpo: Option<string>, annot: Option<string>, run: string -> Option<string>)
    returns (o: Outcome)
    ensures Missing(date) ==> o == Refused("Error --date argument required")
    ensures !Missing(date) && Missing(hpo) ==> o == Refused("Error --hpo argument required")
    ensures !Missing(date) && !Missing(hpo) && Missing(annot) ==> o == Refused("Error --annot argument required")
    ensures !Missing(date) && !Missing(hpo) && !Missing(annot) ==>
      var (rows, err) := CountRows(CategoryKeys, CategoryIds, |CategoryIds|, AnnotRecords(date.value, PyStr(enddate), annot.value, run), AnnotRow);
      o == Ran(AnnotHeader(date.value, enddate) + rows, err)
  {
    if Missing(date) {
      return Refused("Error --date argument required");
    }
    if Missing(hpo) {
      return Refused("Error --hpo argument required");
    }
    if Missing(annot) {
      return Refused("Error --annot argument required");
    }
    RegistryShape();
    var lines, err := RunAnnotations(CategoryKeys, CategoryIds, date.value, enddate, annot.value, run);
    o := Ran(lines, err);
  }

  /** For the registry itself, every row of annotcounts.txt splits into the category's id, its key and its two counts. */
  lemma RegistryRows(startdate: string, enddate: string, annot: string, run: string -> Option<string>)
    ensures Parallel(CategoryKeys, CategoryIds)
    ensures |CountRows(CategoryKeys, CategoryIds, |CategoryIds|, AnnotRecords(startdate, enddate, annot, run), AnnotRow).0| <= |CategoryIds|
    ensures var record := AnnotRecords(startdate, enddate, annot, run);
      var rows := CountRows(CategoryKeys, CategoryIds, |CategoryIds|, record, AnnotRow).0;
      forall i :: 0 <= i < |rows| ==> (record(CategoryIds[i]).Ok? && PySplit(rows[i], '\t')
        == [CategoryIds[i], CategoryKeys[i], IntToString(record(CategoryIds[i]).value.createdAfter), IntToString(record(CategoryIds[i]).value.total)])
  {
    RegistryShape();
    KeysTabFree();
    IdsTabFree();
    AnnotRowsFields(CategoryKeys, CategoryIds, AnnotRecords(startdate, enddate, annot, run));
  }
}
