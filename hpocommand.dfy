/**
 * The "hpo" command: the time window terms are compared with, the list
 * of the descendants of a term with their creation dates, and the
 * assignment of terms to top-level categories.
 */
module HpoCommand {
  import opened Wrappers
  import opened Strings
  import opened TermIds
  import opened Dates
  import opened Ontology
  import HpoAnnotations

  // ------------------------------------------------------------ the window

  /** The first day of the HPO, the start date when none is given. */
  const HpoBirthday := "2008-11-01"

  /** The inclusive bounds the creation dates are compared with. */
  datatype Window = Window(start: Tm, end: Tm)

  /** What the command keeps: the date text as given, the window, and the term when one is given. */
  datatype Settings = Settings(thresholdText: string, window: Window, tid: Option<TermId>)

  /**
   * The HpoCommand constructor: the start date (2008-11-01 when empty), the
   * end date (the current date, now, when empty) and the term id, each
   * read in that order.
   */
  function NewSettings(date: string, endDate: string, termid: string, now: Tm): Result<Settings> {
    match StringToTime(if date == "" then HpoBirthday else date)
    case Err(e) => Err(e)
    case Ok(start) =>
      match (if endDate == "" then Ok(now) else StringToTime(endDate))
      case Err(e) => Err(e)
      case Ok(end) =>
        if termid == "" then Ok(Settings(date, Window(start, end), None))
        else match FromString(termid)
          case Err(e) => Err(e)
          case Ok(tid) => Ok(Settings(date, Window(start, end), Some(tid)))
  }

  /** The 1st of November 2008 is written "2008-11-01". */
  lemma BirthdayWritten()
    ensures StringifyDate(Tm(108, 10, 1)) == HpoBirthday
  {
    assert NatToString(20) == "20";
    assert NatToString(200) == "200";
    assert Number(2008, false) == "2008";
  }

  /** The birthday of the HPO is read as the 1st of November 2008. */
  lemma BirthdayText()
    ensures StringToTime(HpoBirthday) == Ok(Tm(108, 10, 1))
  {
    BirthdayWritten();
    StringifyDateRoundTrip(Tm(108, 10, 1));
  }

  /** Without a start date the window starts on the 1st of November 2008; without an end date it ends now. */
  lemma DefaultWindow(termid: string, now: Tm)
    ensures NewSettings("", "", termid, now).Ok? <==> termid == "" || FromString(termid).Ok?
    ensures NewSettings("", "", termid, now).Ok? ==> NewSettings("", "", termid, now).value.window == Window(Tm(108, 10, 1), now)
  {
    BirthdayText();
  }

  /** HpoCommand::in_time_window, branch by branch: not before the start and not after the end. */
  predicate InTimeWindow(w: Window, t: Tm) {
    if t.year == w.start.year && t.mon < w.start.mon then false
    else if t.year == w.start.year && t.mon == w.start.mon && t.mday < w.start.mday then false
    else if t.year != w.start.year && t.year < w.start.year then false
    else if t.year == w.end.year && t.mon > w.end.mon then false
    else if t.year == w.end.year && t.mon == w.end.mon && t.mday > w.end.mday then false
    else if t.year != w.end.year && t.year > w.end.year then false
    else true
  }

  /** The test is the date order with both bounds included. */
  lemma InTimeWindowMeaning(w: Window, t: Tm)
    ensures InTimeWindow(w, t) <==> DateLeq(w.start, t) && DateLeq(t, w.end)
  {
  }

  // ------------------------------------------------- output_descendants

  /** std::map lookup in the term map of the ontology. */
  function Lookup(terms: map<string, TermData>, tid: TermId): Option<TermData> {
    if tid.value in terms then Some(terms[tid.value]) else None
  }

  /** The first line: the target id and its label. */
  function SubontologyLine(tid: TermId, termLabel: string): string {
    "#Subontology: " + tid.value + " (" + termLabel + ")"
  }

  /** The column header. */
  const ColumnHeader := "#hpo.id\thpo.label\tcreation.date\tincluded"

  /** The row of a descendant: id, label, creation date without padding, and T or F for the window test. */
  function DescendantRow(d: TermId, t: TermData, created: Tm, w: Window): string {
    d.value + "\t" + t.name + "\t" + PlainDate(created) + "\t" + (if InTimeWindow(w, created) then "T" else "F")
  }

  /** The line with the number of descendants in the window. */
  function CreatedLine(thresholdText: string, newer: int): string {
    "#Created after " + thresholdText + ": " + IntToString(newer)
  }

  /** The line with the number of descendants. */
  function TotalLine(total: int): string {
    "#Total: " + IntToString(total)
  }

  /** One row per descendant the ontology has, in order; a descendant it lacks is passed over. */
  function Rows(descs: seq<TermId>, terms: map<string, TermData>, creation: TermData -> Tm, w: Window): seq<string> {
    if |descs| == 0 then []
    else
      var d := descs[|descs| - 1];
      Rows(descs[..|descs| - 1], terms, creation, w)
        + match Lookup(terms, d)
          case None => []
          case Some(t) => [DescendantRow(d, t, creation(t), w)]
  }

  /** The number of descendants the ontology has. */
  function FoundCount(descs: seq<TermId>, terms: map<string, TermData>): nat {
    if |descs| == 0 then 0
    else FoundCount(descs[..|descs| - 1], terms) + if Lookup(terms, descs[|descs| - 1]).Some? then 1 else 0
  }

  /** The number of those whose creation date is in the window. */
  function InWindowCount(descs: seq<TermId>, terms: map<string, TermData>, creation: TermData -> Tm, w: Window): nat {
    if |descs| == 0 then 0
    else
      InWindowCount(descs[..|descs| - 1], terms, creation, w)
        + match Lookup(terms, descs[|descs| - 1])
          case None => 0
          case Some(t) => if InTimeWindow(w, creation(t)) then 1 else 0
  }

  /**
   * output_descendants as written: after each row, the running counts;
   * a descendant the ontology lacks adds to the total but writes nothing.
   */
  function AsWrittenRows(descs: seq<TermId>, terms: map<string, TermData>, creation: TermData -> Tm, w: Window, thresholdText: string): seq<string> {
    if |descs| == 0 then []
    else
      var d := descs[|descs| - 1];
      AsWrittenRows(descs[..|descs| - 1], terms, creation, w, thresholdText)
        + match Lookup(terms, d)
          case None => []
          case Some(t) =>
            [DescendantRow(d, t, creation(t), w), CreatedLine(thresholdText, InWindowCount(descs, terms, creation, w)), TotalLine(|descs|)]
  }

  /** What output_descendants writes as written: nothing when the target is not in the ontology. */
  function AsWrittenReport(s: Settings, tid: TermId, descs: seq<TermId>, terms: map<string, TermData>, creation: TermData -> Tm): seq<string> {
    match Lookup(terms, tid)
    case None => []
    case Some(t) => [SubontologyLine(tid, t.name), ColumnHeader] + AsWrittenRows(descs, terms, creation, s.window, s.thresholdText)
  }

  /** What output_descendants evidently means to write: the rows, then the final counts once. */
  function Report(s: Settings, tid: TermId, descs: seq<TermId>, terms: map<string, TermData>, creation: TermData -> Tm): seq<string> {
    match Lookup(terms, tid)
    case None => []
    case Some(t) =>
      [SubontologyLine(tid, t.name), ColumnHeader] + Rows(descs, terms, creation, s.window)
        + [CreatedLine(s.thresholdText, InWindowCount(descs, terms, creation, s.window)), TotalLine(|descs|)]
  }

  lemma RowsStep(descs: seq<TermId>, k: nat, terms: map<string, TermData>, creation: TermData -> Tm, w: Window)
    requires k < |descs|
    ensures Rows(descs[..k + 1], terms, creation, w) == Rows(descs[..k], terms, creation, w)
      + match Lookup(terms, descs[k])
        case None => []
        case Some(t) => [DescendantRow(descs[k], t, creation(t), w)]
  {
    assert descs[..k + 1][..k] == descs[..k];
  }

  lemma InWindowStep(descs: seq<TermId>, k: nat, terms: map<string, TermData>, creation: TermData -> Tm, w: Window)
    requires k < |descs|
    ensures InWindowCount(descs[..k + 1], terms, creation, w) == InWindowCount(descs[..k], terms, creation, w)
      + match Lookup(terms, descs[k])
        case None => 0
        case Some(t) => if InTimeWindow(w, creation(t)) then 1 else 0
  {
    assert descs[..k + 1][..k] == descs[..k];
  }

  lemma AsWrittenRowsStep(descs: seq<TermId>, k: nat, terms: map<string, TermData>, creation: TermData -> Tm, w: Window, thresholdText: string)
    requires k < |descs|
    ensures AsWrittenRows(descs[..k + 1], terms, creation, w, thresholdText) == AsWrittenRows(descs[..k], terms, creation, w, thresholdText)
      + match Lookup(terms, descs[k])
        case None => []
        case Some(t) =>
          [DescendantRow(descs[k], t, creation(t), w), CreatedLine(thresholdText, InWindowCount(descs[..k + 1], terms, creation, w)), TotalLine(k + 1)]
  {
    assert descs[..k + 1][..k] == descs[..k];
  }

  /** HpoCommand::output_descendants, corrected to write the counts once, after the loop. */
  method OutputDescendants(s: Settings, tid: TermId, descs: seq<TermId>, onto: Ontology, creation: TermData -> Tm)
    returns (lines: seq<string>)
    ensures lines == Report(s, tid, descs, onto.termMap, creation)
  {
    var term := onto.GetTerm(tid);
    if term.None? {
      return [];
    }
    ghost var terms := onto.termMap;
    var total := 0;
    var newer := 0;
    var rows: seq<string> := [];
    for k := 0 to |descs|
      invariant total == k
      invariant newer == InWindowCount(descs[..k], terms, creation, s.window)
      invariant rows == Rows(descs[..k], terms, creation, s.window)
    {
      RowsStep(descs, k, terms, creation, s.window);
      InWindowStep(descs, k, terms, creation, s.window);
      total := total + 1;
      var found := onto.GetTerm(descs[k]);
      if found.None? {
        continue;
      }
      var created := creation(found.value);
      var passes := InTimeWindow(s.window, created);
      rows := rows + [DescendantRow(descs[k], found.value, created, s.window)];
      if passes {
        newer := newer + 1;
      }
    }
    assert descs[..|descs|] == descs;
    lines := [SubontologyLine(tid, term.value.name), ColumnHeader] + rows + [CreatedLine(s.thresholdText, newer), TotalLine(total)];
  }

  /** HpoCommand::output_descendants as written: the counts follow every row. */
  method AsWrittenOutputDescendants(s: Settings, tid: TermId, descs: seq<TermId>, onto: Ontology, creation: TermData -> Tm)
    returns (lines: seq<string>)
    ensures lines == AsWrittenReport(s, tid, descs, onto.termMap, creation)
  {
    var term := onto.GetTerm(tid);
    if term.None? {
      return [];
    }
    ghost var terms := onto.termMap;
    var total := 0;
    var newer := 0;
    var rows: seq<string> := [];
    for k := 0 to |descs|
      invariant total == k
      invariant newer == InWindowCount(descs[..k], terms, creation, s.window)
      invariant rows == AsWrittenRows(descs[..k], terms, creation, s.window, s.thresholdText)
    {
      InWindowStep(descs, k, terms, creation, s.window);
      AsWrittenRowsStep(descs, k, terms, creation, s.window, s.thresholdText);
      total := total + 1;
      var found := onto.GetTerm(descs[k]);
      if found.None? {
        continue;
      }
      var created := creation(found.value);
      var row := DescendantRow(descs[k], found.value, created, s.window);
      if InTimeWindow(s.window, created) {
        newer := newer + 1;
      }
      rows := rows + [row, CreatedLine(s.thresholdText, newer), TotalLine(total)];
    }
    assert descs[..|descs|] == descs;
    lines := [SubontologyLine(tid, term.value.name), ColumnHeader] + rows;
  }

  /** Every descendant adds to the total, only one the ontology has adds a row, and only one in the window adds to the newer count. */
  lemma {:induction false} Counts(descs: seq<TermId>, terms: map<string, TermData>, creation: TermData -> Tm, w: Window)
    ensures InWindowCount(descs, terms, creation, w) <= FoundCount(descs, terms) <= |descs|
    ensures |Rows(descs, terms, creation, w)| == FoundCount(descs, terms)
  {
    if |descs| > 0 {
      Counts(descs[..|descs| - 1], terms, creation, w);
    }
  }

  /**
   * As written, the final counts are written when the last descendant is
   * in the ontology: then the report ends as the corrected one does.
   */
  lemma AsWrittenLastPair(s: Settings, tid: TermId, descs: seq<TermId>, terms: map<string, TermData>, creation: TermData -> Tm)
    requires Lookup(terms, tid).Some? && |descs| > 0 && Lookup(terms, descs[|descs| - 1]).Some?
    ensures var r := AsWrittenReport(s, tid, descs, terms, creation);
      var c := Report(s, tid, descs, terms, creation);
      |r| >= 2 && r[|r| - 2..] == c[|c| - 2..]
  {
  }

  /**
   * As written, a term without descendants gets no count lines at all,
   * where the corrected report ends with zero counts.
   */
  lemma AsWrittenNoCountsWithoutDescendants(s: Settings, tid: TermId, terms: map<string, TermData>, creation: TermData -> Tm)
    requires Lookup(terms, tid).Some?
    ensures AsWrittenReport(s, tid, [], terms, creation) == [SubontologyLine(tid, terms[tid.value].name), ColumnHeader]
    ensures Report(s, tid, [], terms, creation)[2..] == [CreatedLine(s.thresholdText, 0), TotalLine(0)]
  {
  }

  /** As written, no line after the header is written while no descendant is in the ontology. */
  lemma {:induction false} AsWrittenRowsWithoutFound(descs: seq<TermId>, terms: map<string, TermData>, creation: TermData -> Tm, w: Window, thresholdText: string)
    requires FoundCount(descs, terms) == 0
    ensures AsWrittenRows(descs, terms, creation, w, thresholdText) == []
  {
    if |descs| > 0 {
      AsWrittenRowsWithoutFound(descs[..|descs| - 1], terms, creation, w, thresholdText);
    }
  }

  /**
   * The length of the shortest prefix of the descendants that holds all of
   * those the ontology has: the total of the last count lines written as
   * written.
   */
  function FoundPrefix(descs: seq<TermId>, terms: map<string, TermData>): (r: nat)
    ensures r <= |descs|
  {
    if |descs| == 0 then 0
    else if Lookup(terms, descs[|descs| - 1]).Some? then |descs|
    else FoundPrefix(descs[..|descs| - 1], terms)
  }

  /**
   * The descendants after that prefix are all missing from the ontology,
   * so they change neither count, and the prefix is empty exactly when no
   * descendant is found.
   */
  lemma {:induction false} FoundPrefixCounts(descs: seq<TermId>, terms: map<string, TermData>, creation: TermData -> Tm, w: Window)
    ensures var p := FoundPrefix(descs, terms);
      InWindowCount(descs[..p], terms, creation, w) == InWindowCount(descs, terms, creation, w)
      && FoundCount(descs[..p], terms) == FoundCount(descs, terms)
      && (p == 0 <==> FoundCount(descs, terms) == 0)
      && (forall k :: p <= k < |descs| ==> Lookup(terms, descs[k]).None?)
  {
    if |descs| > 0 {
      var prefix := descs[..|descs| - 1];
      if Lookup(terms, descs[|descs| - 1]).Some? {
        assert descs[..|descs|] == descs;
      } else {
        FoundPrefixCounts(prefix, terms, creation, w);
        var p := FoundPrefix(prefix, terms);
        assert descs[..p] == prefix[..p];
        forall k | p <= k < |descs| ensures Lookup(terms, descs[k]).None? {
          if k < |descs| - 1 {
            assert descs[k] == prefix[k];
          }
        }
      }
    }
  }

  // ------------------------------------------------------------ categories

  /** std::find: the first position of a top-level category equal (by value) to t. */
  function FindTop(tops: seq<TermId>, t: TermId): (r: Option<nat>)
    ensures r.None? <==> forall j :: 0 <= j < |tops| ==> tops[j].value != t.value
    ensures r.Some? ==> (r.value < |tops| && tops[r.value].value == t.value
      && forall j :: 0 <= j < r.value ==> tops[j].value != t.value)
  {
    if |tops| == 0 then None
    else if tops[0].value == t.value then Some(0)
    else match FindTop(tops[1..], t)
      case None => None
      case Some(j) => Some(j + 1)
  }

  /** The category of a term: the first of its ancestors, in the order of the set, that is a top-level category. */
  function FirstCategory(ancestors: seq<TermId>, tops: seq<TermId>): Option<TermId> {
    if |ancestors| == 0 then None
    else match FindTop(tops, ancestors[0])
      case Some(j) => Some(tops[j])
      case None => FirstCategory(ancestors[1..], tops)
  }

  /** A term has a category exactly when one of its ancestors is a top-level category, and then it is the first such ancestor. */
  lemma {:induction false} FirstCategoryMeaning(ancestors: seq<TermId>, tops: seq<TermId>)
    ensures FirstCategory(ancestors, tops).None? <==>
      forall i, j :: 0 <= i < |ancestors| && 0 <= j < |tops| ==> ancestors[i].value != tops[j].value
    ensures FirstCategory(ancestors, tops).Some? ==>
      exists i :: 0 <= i < |ancestors| && FirstCategory(ancestors, tops).value.value == ancestors[i].value
        && FirstCategory(ancestors, tops).value in tops
        && forall i', j :: 0 <= i' < i && 0 <= j < |tops| ==> ancestors[i'].value != tops[j].value
  {
    if |ancestors| > 0 {
      FirstCategoryMeaning(ancestors[1..], tops);
      if FindTop(tops, ancestors[0]).None? {
        if FirstCategory(ancestors, tops).Some? {
          var i :| 0 <= i < |ancestors[1..]| && FirstCategory(ancestors[1..], tops).value.value == ancestors[1..][i].value
            && FirstCategory(ancestors[1..], tops).value in tops
            && forall i', j :: 0 <= i' < i && 0 <= j < |tops| ==> ancestors[1..][i'].value != tops[j].value;
          assert forall i', j :: 0 <= i' < i + 1 && 0 <= j < |tops| ==> ancestors[i'].value != tops[j].value by {
            forall i', j | 0 <= i' < i + 1 && 0 <= j < |tops| ensures ancestors[i'].value != tops[j].value {
              if i' > 0 {
                assert ancestors[i'] == ancestors[1..][i' - 1];
              }
            }
          }
        } else {
          forall i, j | 0 <= i < |ancestors| && 0 <= j < |tops| ensures ancestors[i].value != tops[j].value {
            if i > 0 {
              assert ancestors[i] == ancestors[1..][i - 1];
            }
          }
        }
      }
    }
  }

  /** The loop over the ancestors that stops at the first top-level category. */
  method CategoryOf(ancestors: seq<TermId>, tops: seq<TermId>) returns (r: Option<TermId>)
    ensures r == FirstCategory(ancestors, tops)
  {
    for i := 0 to |ancestors|
      invariant FirstCategory(ancestors, tops) == FirstCategory(ancestors[i..], tops)
    {
      assert ancestors[i..][1..] == ancestors[i + 1..];
      var p := FindTop(tops, ancestors[i]);
      if p.Some? {
        return Some(tops[p.value]);
      }
    }
    return None;
  }

  /** A dereference of an empty std::optional<Term>. */
  const EmptyTerm := UndefinedBehaviour("an empty std::optional<Term> is dereferenced")

  /**
   * The line written for a term: its id and its category; without a
   * category, the warning names the label of the term, which is undefined
   * when the ontology does not have the term.
   */
  function CategoryLine(t: Option<TermData>, tid: TermId, ancestors: seq<TermId>, tops: seq<TermId>): Result<seq<string>> {
    match FirstCategory(ancestors, tops)
    case Some(p) => Ok([tid.value + "\t" + p.value])
    case None => if t.None? then Err(EmptyTerm) else Ok([])
  }

  /** What output_terms_by_category does with one current term: an obsolete one is passed over. */
  function TermByCategory(terms: map<string, TermData>, ancestors: TermId -> seq<TermId>, tops: seq<TermId>, tid: TermId): Result<seq<string>> {
    var t := Lookup(terms, tid);
    if t.Some? && t.value.obsolete then Ok([]) else CategoryLine(t, tid, ancestors(tid), tops)
  }

  /** The lines of output_terms_by_category, in the order of the ids, up to the first undefined dereference. */
  function CategoryLines(ids: seq<TermId>, terms: map<string, TermData>, ancestors: TermId -> seq<TermId>, tops: seq<TermId>): Result<seq<string>> {
    if |ids| == 0 then Ok([])
    else match CategoryLines(ids[..|ids| - 1], terms, ancestors, tops)
      case Err(e) => Err(e)
      case Ok(ls) =>
        match TermByCategory(terms, ancestors, tops, ids[|ids| - 1])
        case Err(e) => Err(e)
        case Ok(more) => Ok(ls + more)
  }

  /** The number of terms counted as valid: every one that is not known to be obsolete. */
  function ValidCount(ids: seq<TermId>, terms: map<string, TermData>): nat {
    if |ids| == 0 then 0
    else
      var t := Lookup(terms, ids[|ids| - 1]);
      ValidCount(ids[..|ids| - 1], terms) + if t.Some? && t.value.obsolete then 0 else 1
  }

  lemma CategoryLinesStep(ids: seq<TermId>, k: nat, terms: map<string, TermData>, ancestors: TermId -> seq<TermId>, tops: seq<TermId>)
    requires k < |ids| && CategoryLines(ids[..k], terms, ancestors, tops).Ok?
    ensures TermByCategory(terms, ancestors, tops, ids[k]).Ok? ==>
      CategoryLines(ids[..k + 1], terms, ancestors, tops)
        == Ok(CategoryLines(ids[..k], terms, ancestors, tops).value + TermByCategory(terms, ancestors, tops, ids[k]).value)
    ensures TermByCategory(terms, ancestors, tops, ids[k]).Err? ==>
      CategoryLines(ids[..k + 1], terms, ancestors, tops) == TermByCategory(terms, ancestors, tops, ids[k])
    ensures ValidCount(ids[..k + 1], terms) == ValidCount(ids[..k], terms)
      + if Lookup(terms, ids[k]).Some? && Lookup(terms, ids[k]).value.obsolete then 0 else 1
  {
    assert ids[..k + 1][..k] == ids[..k];
  }

  /** Once a term fails, the whole output fails the same way. */
  lemma {:induction false} CategoryLinesFailurePersists(ids: seq<TermId>, i: nat, terms: map<string, TermData>, ancestors: TermId -> seq<TermId>, tops: seq<TermId>)
    requires i <= |ids| && CategoryLines(ids[..i], terms, ancestors, tops).Err?
    ensures CategoryLines(ids, terms, ancestors, tops) == CategoryLines(ids[..i], terms, ancestors, tops)
    decreases |ids| - i
  {
    if i < |ids| {
      assert ids[..i + 1][..i] == ids[..i];
      CategoryLinesFailurePersists(ids, i + 1, terms, ancestors, tops);
    } else {
      assert ids[..i] == ids;
    }
  }

  /**
   * HpoCommand::output_terms_by_category over the current term ids, with
   * get_ancestors and the top-level categories as inputs: the lines of the
   * output file and the number of valid terms.
   */
  method OutputTermsByCategory(onto: Ontology, ancestors: TermId -> seq<TermId>, tops: seq<TermId>)
    returns (r: Result<seq<string>>, valid: nat)
    ensures r == CategoryLines(onto.currentTermIds, onto.termMap, ancestors, tops)
    ensures r.Ok? ==> valid == ValidCount(onto.currentTermIds, onto.termMap)
  {
    var ids := onto.currentTermIds;
    ghost var terms := onto.termMap;
    var lines: seq<string> := [];
    valid := 0;
    for k := 0 to |ids|
      invariant CategoryLines(ids[..k], terms, ancestors, tops) == Ok(lines)
      invariant valid == ValidCount(ids[..k], terms)
    {
      var tid := ids[k];
      var term := onto.GetTerm(tid);
      assert term == Lookup(terms, tid);
      CategoryLinesStep(ids, k, terms, ancestors, tops);
      if term.Some? && term.value.obsolete {
        assert lines + [] == lines;
        continue;
      }
      valid := valid + 1;
      var p := CategoryOf(ancestors(tid), tops);
      assert p.None? && term.Some? ==> lines + TermByCategory(terms, ancestors, tops, tid).value == lines;
      if p.Some? {
        assert TermByCategory(terms, ancestors, tops, tid) == Ok([tid.value + "\t" + p.value.value]);
        lines := lines + [tid.value + "\t" + p.value.value];
      } else if term.None? {
        CategoryLinesFailurePersists(ids, k + 1, terms, ancestors, tops);
        return Err(EmptyTerm), valid;
      }
    }
    assert ids[..|ids|] == ids;
    r := Ok(lines);
  }

  /** Each term writes at most one line, and a term known to be obsolete writes none. */
  lemma {:induction false} CategoryLinesCount(ids: seq<TermId>, terms: map<string, TermData>, ancestors: TermId -> seq<TermId>, tops: seq<TermId>)
    ensures CategoryLines(ids, terms, ancestors, tops).Ok? ==> |CategoryLines(ids, terms, ancestors, tops).value| <= ValidCount(ids, terms) <= |ids|
  {
    if |ids| > 0 {
      CategoryLinesCount(ids[..|ids| - 1], terms, ancestors, tops);
    }
  }

  // ---------------------------------------------------- annotate_termfile

  /** The root check as written: compares the whole value with the bare number of the root. */
  predicate AsWrittenIsRoot(tid: TermId) {
    tid.value == "0000118"
  }

  /** The root check as evidently intended: the id of the root term, All. */
  predicate IsRoot(tid: TermId) {
    tid.value == "HP:0000118"
  }

  /** The root check of annotate_termfile as written, or corrected. */
  predicate RootCheck(tid: TermId, corrected: bool) {
    if corrected then IsRoot(tid) else AsWrittenIsRoot(tid)
  }

  /** Every id from_string returns holds a ':', so the check as written never skips a line. */
  lemma AsWrittenRootNeverMatches(line: string)
    ensures FromString(line).Ok? ==> !AsWrittenIsRoot(FromString(line).value)
  {
    if FromString(line).Ok? {
      var t := FromString(line).value;
      assert t.value[t.sep] == ':';
      assert ':' !in "0000118";
    }
  }

  /**
   * What annotate_termfile does with one line: the exception of from_string,
   * the root (as the root check finds it), obsolete terms and alternative
   * ids passed over, and the category line; a term the ontology lacks is
   * dereferenced when its alternative ids are asked for.
   */
  function AnnotatedLine(terms: map<string, TermData>, ancestors: TermId -> seq<TermId>, tops: seq<TermId>,
                         isAlternative: (TermData, TermId) -> bool, line: string, corrected: bool): Result<seq<string>> {
    match FromString(line)
    case Err(e) => Err(e)
    case Ok(tid) =>
      if RootCheck(tid, corrected) then Ok([])
      else
        var t := Lookup(terms, tid);
        if t.None? then Err(EmptyTerm)
        else if t.value.obsolete || isAlternative(t.value, tid) then Ok([])
        else CategoryLine(t, tid, ancestors(tid), tops)
  }

  /**
   * Corrected, the root line "HP:0000118" writes nothing. As written it is
   * treated like any other line: an ontology without the root term makes
   * the program dereference an empty optional.
   */
  lemma RootLineSkipped(terms: map<string, TermData>, ancestors: TermId -> seq<TermId>, tops: seq<TermId>,
                        isAlternative: (TermData, TermId) -> bool)
    ensures AnnotatedLine(terms, ancestors, tops, isAlternative, "HP:0000118", true) == Ok([])
    ensures "HP:0000118" !in terms ==> AnnotatedLine(terms, ancestors, tops, isAlternative, "HP:0000118", false) == Err(EmptyTerm)
  {
    FromStringOfCurie("HP:0000118", 2);
    AsWrittenRootNeverMatches("HP:0000118");
  }

  /** The lines of the output file, line by line of the term file, up to the first failure. */
  function AnnotatedLines(lines: seq<string>, terms: map<string, TermData>, ancestors: TermId -> seq<TermId>, tops: seq<TermId>,
                          isAlternative: (TermData, TermId) -> bool, corrected: bool): Result<seq<string>> {
    if |lines| == 0 then Ok([])
    else match AnnotatedLines(lines[..|lines| - 1], terms, ancestors, tops, isAlternative, corrected)
      case Err(e) => Err(e)
      case Ok(ls) =>
        match AnnotatedLine(terms, ancestors, tops, isAlternative, lines[|lines| - 1], corrected)
        case Err(e) => Err(e)
        case Ok(more) => Ok(ls + more)
  }

  lemma AnnotatedLinesStep(lines: seq<string>, k: nat, terms: map<string, TermData>, ancestors: TermId -> seq<TermId>,
                           tops: seq<TermId>, isAlternative: (TermData, TermId) -> bool, corrected: bool)
    requires k < |lines| && AnnotatedLines(lines[..k], terms, ancestors, tops, isAlternative, corrected).Ok?
    ensures AnnotatedLine(terms, ancestors, tops, isAlternative, lines[k], corrected).Ok? ==>
      AnnotatedLines(lines[..k + 1], terms, ancestors, tops, isAlternative, corrected)
        == Ok(AnnotatedLines(lines[..k], terms, ancestors, tops, isAlternative, corrected).value
              + AnnotatedLine(terms, ancestors, tops, isAlternative, lines[k], corrected).value)
    ensures AnnotatedLine(terms, ancestors, tops, isAlternative, lines[k], corrected).Err? ==>
      AnnotatedLines(lines[..k + 1], terms, ancestors, tops, isAlternative, corrected) == AnnotatedLine(terms, ancestors, tops, isAlternative, lines[k], corrected)
  {
    assert lines[..k + 1][..k] == lines[..k];
  }

  /** Once a line fails, the whole output fails the same way. */
  lemma {:induction false} AnnotatedLinesFailurePersists(lines: seq<string>, i: nat, terms: map<string, TermData>,
                                                         ancestors: TermId -> seq<TermId>, tops: seq<TermId>,
                                                         isAlternative: (TermData, TermId) -> bool, corrected: bool)
    requires i <= |lines| && AnnotatedLines(lines[..i], terms, ancestors, tops, isAlternative, corrected).Err?
    ensures AnnotatedLines(lines, terms, ancestors, tops, isAlternative, corrected) == AnnotatedLines(lines[..i], terms, ancestors, tops, isAlternative, corrected)
    decreases |lines| - i
  {
    if i < |lines| {
      assert lines[..i + 1][..i] == lines[..i];
      AnnotatedLinesFailurePersists(lines, i + 1, terms, ancestors, tops, isAlternative, corrected);
    } else {
      assert lines[..i] == lines;
    }
  }

  /**
   * HpoCommand::annotate_termfile, as written or corrected to skip the
   * root, over the contents of the term file (None when it cannot be
   * opened).
   */
  method AnnotateTermfile(contents: Option<string>, onto: Ontology, ancestors: TermId -> seq<TermId>, tops: seq<TermId>,
                          isAlternative: (TermData, TermId) -> bool, corrected: bool)
    returns (r: Result<seq<string>>)
    ensures contents.None? ==> r == Ok([])
    ensures contents.Some? ==> r == AnnotatedLines(Pieces(contents.value, '\n'), onto.termMap, ancestors, tops, isAlternative, corrected)
  {
    if contents.None? {
      return Ok([]);
    }
    var lines := HpoAnnotations.Split(contents.value, '\n');
    ghost var terms := onto.termMap;
    var out: seq<string> := [];
    for k := 0 to |lines|
      invariant AnnotatedLines(lines[..k], terms, ancestors, tops, isAlternative, corrected) == Ok(out)
    {
      AnnotatedLinesStep(lines, k, terms, ancestors, tops, isAlternative, corrected);
      var one := AnnotateLine(lines[k], onto, ancestors, tops, isAlternative, corrected);
      if one.Err? {
        AnnotatedLinesFailurePersists(lines, k + 1, terms, ancestors, tops, isAlternative, corrected);
        return Err(one.error);
      }
      out := out + one.value;
    }
    assert lines[..|lines|] == lines;
    r := Ok(out);
  }

  /** The body of the loop of annotate_termfile for one line. */
  method AnnotateLine(line: string, onto: Ontology, ancestors: TermId -> seq<TermId>, tops: seq<TermId>,
                      isAlternative: (TermData, TermId) -> bool, corrected: bool)
    returns (r: Result<seq<string>>)
    ensures r == AnnotatedLine(onto.termMap, ancestors, tops, isAlternative, line, corrected)
  {
    var parsed := FromString(line);
    if parsed.Err? {
      return Err(parsed.error);
    }
    var tid := parsed.value;
    if RootCheck(tid, corrected) {
      return Ok([]);
    }
    var term := onto.GetTerm(tid);
    if term.None? {
      return Err(EmptyTerm);
    } else if term.value.obsolete {
      return Ok([]);
    }
    if isAlternative(term.value, tid) {
      return Ok([]);
    }
    var p := CategoryOf(ancestors(tid), tops);
    if p.Some? {
      return Ok([tid.value + "\t" + p.value.value]);
    }
    return Ok([]);
  }
}
