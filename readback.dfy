/**
 * The text protocol between the C++ commands and countHpoBySubontology.py:
 * the summary lines the "hpo" and "annotation" commands write are read
 * back by the script's parsers as the counts the commands computed.
 */
module ReadBack {
  import opened Wrappers
  import opened Strings
  import opened TermIds
  import opened CountScript
  import Dates
  import Ontology
  import HpoAnnotations
  import HpoCommand
  import AnnotCommand

  /** A line that cannot start with a given prefix: it differs from it at position i. */
  lemma DiffersAt(line: string, prefix: string, i: nat)
    requires i < |prefix| && i < |line| && line[i] != prefix[i]
    ensures !StartsWith(line, prefix)
  {
    if |prefix| <= |line| {
      assert line[..|prefix|][i] != prefix[i];
    }
  }

  /** A written number after a colon and a space, as int() of the stripped text reads it. */
  lemma SpacedNumber(n: int)
    ensures ':' !in " " + IntToString(n) && '\n' !in " " + IntToString(n)
    ensures Int(Strip(" " + IntToString(n))) == Ok(n)
  {
    var s := IntToString(n);
    IntToStringPlain(n);
    assert Strip(" " + s) == s by {
      StripAround(" ", s, "");
      assert " " + s + "" == " " + s;
    }
    IntOfIntToString(n);
  }

  /** rstrip('\n') and split(':') of a written summary line "a:b" give b, when only one ':' is in it. */
  lemma SummaryField(a: string, b: string)
    requires ':' !in a && ':' !in b && |b| > 0 && '\n' !in b
    ensures ColonField(Terminated(a + ":" + b)) == Ok(b)
  {
    var l := a + ":" + b;
    assert l[|l| - 1] == b[|b| - 1];
    RStripTerminated(l);
    PySplitTwo(a, b, ':');
  }

  /** A summary line "a:b" with its line end starts as a does, and its field after the ':' is b. */
  lemma SummaryLine(a: string, prefix: string, b: string)
    requires StartsWith(a, prefix)
    requires ':' !in a && ':' !in b && |b| > 0 && '\n' !in b
    ensures StartsWith(Terminated(a + ":" + b), prefix)
    ensures ColonField(Terminated(a + ":" + b)) == Ok(b)
  {
    assert Terminated(a + ":" + b)[..|prefix|] == a[..|prefix|];
    SummaryField(a, b);
  }

  // ------------------------------------------------ the "hpo" command

  /** How run_phenotools reads a line starting with "#Subontology". */
  lemma HpoSubontologyStep(st: HpoScan, line: string, myline: string)
    requires StartsWith(line, "#Subontology") && Strip(Drop(line, 13)) == myline
    ensures HpoStep(st, line) == Ok(st.(id := Some(Take(myline, 11)), name := Some(Strip(RemoveChar(Drop(myline, 12), ')')))))
  {
  }

  /** How run_phenotools reads a "#Created after" line whose field after the first ':' is a number. */
  lemma HpoCreatedStep(st: HpoScan, line: string, field: string, n: int)
    requires !StartsWith(line, "#Subontology") && StartsWith(line, "#Created after")
    requires ColonField(line) == Ok(field) && Int(Strip(field)) == Ok(n)
    ensures HpoStep(st, line) == Ok(st.(createdAfter := Some(n)))
  {
  }

  /** How run_phenotools reads a "#Total" line whose field after the first ':' is a number. */
  lemma HpoTotalStep(st: HpoScan, line: string, field: string, n: int)
    requires !StartsWith(line, "#Subontology") && !StartsWith(line, "#Created after") && StartsWith(line, "#Total")
    requires ColonField(line) == Ok(field) && Int(Strip(field)) == Ok(n)
    ensures HpoStep(st, line) == Ok(st.(total := Some(n)))
  {
  }

  /** The subontology line with its line end starts with "#Subontology: ", then the id and the label. */
  lemma SubontologyPrefix(tid: TermId, termLabel: string)
    ensures var line := Terminated(HpoCommand.SubontologyLine(tid, termLabel));
      StartsWith(line, "#Subontology") && Drop(line, 13) == " " + (tid.value + " (" + termLabel + ")") + "\n"
  {
    var line := Terminated(HpoCommand.SubontologyLine(tid, termLabel));
    var rest := " " + (tid.value + " (" + termLabel + ")") + "\n";
    assert line == "#Subontology:" + rest;
    assert line == "#Subontology" + (":" + rest);
  }

  /** The first slice run_phenotools takes of "HP:nnnnnnn (label)": the id with the space after it. */
  lemma SubontologyIdSlice(tid: TermId, termLabel: string)
    requires |tid.value| == 10
    ensures Take(tid.value + " (" + termLabel + ")", 11) == tid.value + " "
  {
    assert tid.value + " (" + termLabel + ")" == (tid.value + " ") + ("(" + termLabel + ")");
  }

  /** Stripping the text after "#Subontology:" leaves "HP:nnnnnnn (label)". */
  lemma SubontologyStripped(tid: TermId, termLabel: string)
    requires StartsWith(tid.value, "HP:")
    ensures Strip(" " + (tid.value + " (" + termLabel + ")") + "\n") == tid.value + " (" + termLabel + ")"
  {
    var myline := tid.value + " (" + termLabel + ")";
    assert myline[0] == tid.value[..3][0] == 'H';
    StripAround(" ", myline, "\n");
  }

  /** The second slice, after "HP:nnnnnnn (", is the label and ')'; removing every ')' leaves the label's other characters. */
  lemma SubontologyNameSlice(tid: TermId, termLabel: string)
    requires |tid.value| == 10
    ensures RemoveChar(Drop(tid.value + " (" + termLabel + ")", 12), ')') == RemoveChar(termLabel, ')')
  {
    assert Drop(tid.value + " (" + termLabel + ")", 12) == termLabel + ")";
    RemoveCharAppend(termLabel, ")", ')');
    assert RemoveChar(")", ')') == [];
  }

  /**
   * "#Subontology: HP:0000818 (Endocrine)" gives the id with the space
   * after it, since the slice takes eleven characters, and the label with
   * every ')' removed and whitespace stripped.
   */
  lemma SubontologyRead(st: HpoScan, tid: TermId, termLabel: string)
    requires |tid.value| == 10 && StartsWith(tid.value, "HP:")
    ensures HpoStep(st, Terminated(HpoCommand.SubontologyLine(tid, termLabel)))
      == Ok(st.(id := Some(tid.value + " "), name := Some(Strip(RemoveChar(termLabel, ')')))))
  {
    SubontologyPrefix(tid, termLabel);
    SubontologyIdSlice(tid, termLabel);
    SubontologyStripped(tid, termLabel);
    SubontologyNameSlice(tid, termLabel);
    HpoSubontologyStep(st, Terminated(HpoCommand.SubontologyLine(tid, termLabel)), tid.value + " (" + termLabel + ")");
  }

  /** The column line changes nothing. */
  lemma ColumnHeaderRead(st: HpoScan)
    ensures HpoStep(st, Terminated(HpoCommand.ColumnHeader)) == Ok(st)
  {
    var line := Terminated(HpoCommand.ColumnHeader);
    DiffersAt(line, "#Subontology", 1);
    DiffersAt(line, "#Created after", 1);
    DiffersAt(line, "#Total", 1);
  }

  /** The created line with its line end: it starts with "#Created after" and its field after the ':' is " n". */
  lemma CreatedText(thresholdText: string, n: int)
    requires ':' !in thresholdText
    ensures var line := Terminated(HpoCommand.CreatedLine(thresholdText, n));
      !StartsWith(line, "#Subontology") && StartsWith(line, "#Created after")
      && ColonField(line) == Ok(" " + IntToString(n))
  {
    var a := "#Created after " + thresholdText;
    var b := " " + IntToString(n);
    var line := Terminated(a + ":" + b);
    assert HpoCommand.CreatedLine(thresholdText, n) == a + ":" + b;
    assert line[1] == a[1] == 'C';
    DiffersAt(line, "#Subontology", 1);
    assert a[..14] == "#Created after";
    assert ':' !in a;
    SpacedNumber(n);
    SummaryLine(a, "#Created after", b);
  }

  /** "#Created after <date>: n" gives n as createdAfter, when the date holds no ':'. */
  lemma CreatedRead(st: HpoScan, thresholdText: string, n: int)
    requires ':' !in thresholdText
    ensures HpoStep(st, Terminated(HpoCommand.CreatedLine(thresholdText, n))) == Ok(st.(createdAfter := Some(n)))
  {
    CreatedText(thresholdText, n);
    SpacedNumber(n);
    HpoCreatedStep(st, Terminated(HpoCommand.CreatedLine(thresholdText, n)), " " + IntToString(n), n);
  }

  /** A line "a:b:c" with its line end: split(':')[1] is b, whatever c holds. */
  lemma SecondColonField(a: string, b: string, c: string)
    requires ':' !in a && ':' !in b && |c| > 0 && c[|c| - 1] != '\n'
    ensures ColonField(Terminated(a + ":" + b + ":" + c)) == Ok(b)
  {
    var l := a + ":" + b + ":" + c;
    var rest := b + ":" + c;
    assert l[|l| - 1] == c[|c| - 1];
    RStripTerminated(l);
    assert Join([a, rest], ':') == l by {
      assert Join([a, rest][1..], ':') == rest;
    }
    PySplitJoinStep([a, rest], ':');
    assert [a, rest][1..] == [rest];
    assert Join([b, c], ':') == rest by {
      assert Join([b, c][1..], ':') == c;
    }
    PySplitJoinStep([b, c], ':');
  }

  /** The timestamp of the examples below, as the hour, the minutes and the seconds between its two ':'. */
  lemma TimestampDate()
    ensures "2019-01-01T10" + ":" + "20" + ":" + "30Z" == "2019-01-01T10:20:30Z"
    ensures ':' !in "2019-01-01T10" && ':' !in "20"
  {
  }

  /** A created line whose date holds two ':', regrouped around them. */
  lemma CreatedLineWithColons(h: string, m: string, sec: string, n: int)
    ensures HpoCommand.CreatedLine(h + ":" + m + ":" + sec, n)
            == ("#Created after " + h) + ":" + m + ":" + (sec + ": " + IntToString(n))
  {
  }

  /** The created line with its line end starts with "#Created after", and not with "#Subontology", whatever the date. */
  lemma CreatedPrefix(thresholdText: string, n: int)
    ensures var line := Terminated(HpoCommand.CreatedLine(thresholdText, n));
      !StartsWith(line, "#Subontology") && StartsWith(line, "#Created after")
  {
    var line := Terminated(HpoCommand.CreatedLine(thresholdText, n));
    assert line[1] == 'C';
    DiffersAt(line, "#Subontology", 1);
    assert line[..14] == "#Created after";
  }

  /** A created line whose date holds two ':': its field after the first ':' is the date's minutes. */
  lemma CreatedTextWithColons(h: string, m: string, sec: string, n: int)
    requires ':' !in h && ':' !in m
    ensures var line := Terminated(HpoCommand.CreatedLine(h + ":" + m + ":" + sec, n));
      !StartsWith(line, "#Subontology") && StartsWith(line, "#Created after")
      && ColonField(line) == Ok(m)
  {
    var a := "#Created after " + h;
    var c := sec + ": " + IntToString(n);
    CreatedLineWithColons(h, m, sec, n);
    IntToStringPlain(n);
    assert c[|c| - 1] == IntToString(n)[|IntToString(n)| - 1];
    assert ':' !in a;
    SecondColonField(a, m, c);
    CreatedPrefix(h + ":" + m + ":" + sec, n);
  }

  /** int() of the minutes field "20", stripped or not. */
  lemma TwentyRead()
    ensures Int("20") == Ok(20) && Int(Strip("20")) == Ok(20)
  {
    assert IntToString(20) == "20";
    IntOfIntToString(20);
    StripUnchanged("20");
  }

  /**
   * The hpo command writes its --date as given, and a date in the
   * timestamp form the command accepts holds ':'. The created line of a
   * count of 5 after 2019-01-01T10:20:30Z is then read as 20, the minutes
   * of the date.
   */
  lemma AsWrittenTimestampMisreadsCreated(st: HpoScan)
    ensures HpoStep(st, Terminated(HpoCommand.CreatedLine("2019-01-01T10:20:30Z", 5))) == Ok(st.(createdAfter := Some(20)))
  {
    TimestampDate();
    CreatedTextWithColons("2019-01-01T10", "20", "30Z", 5);
    TwentyRead();
    HpoCreatedStep(st, Terminated(HpoCommand.CreatedLine("2019-01-01T10:20:30Z", 5)), "20", 20);
  }

  /** A summary line "a:b" with its line end: the field after its last ':' is b, whatever a holds. */
  lemma LastSummaryField(a: string, b: string)
    requires ':' !in b && |b| > 0 && '\n' !in b
    ensures LastColonField(Terminated(a + ":" + b)) == Ok(b)
  {
    var l := a + ":" + b;
    assert l[|l| - 1] == b[|b| - 1];
    RStripTerminated(l);
    assert l[|a| + 1..] == b;
    FindLastCharAt(l, ':', |a|);
  }

  /** Read after its last ':', the created line gives back its count for every date, timestamps included. */
  lemma CreatedFieldAnyDate(thresholdText: string, n: int)
    ensures var line := Terminated(HpoCommand.CreatedLine(thresholdText, n));
      StartsWith(line, "#Created after") && LastColonField(line) == Ok(" " + IntToString(n))
      && Int(Strip(LastColonField(line).value)) == Ok(n)
  {
    var a := "#Created after " + thresholdText;
    var b := " " + IntToString(n);
    var line := Terminated(a + ":" + b);
    assert HpoCommand.CreatedLine(thresholdText, n) == a + ":" + b;
    CreatedPrefix(thresholdText, n);
    SpacedNumber(n);
    LastSummaryField(a, b);
  }

  /** The total line with its line end: it starts with "#Total" and its field after the ':' is " n". */
  lemma TotalText(n: int)
    ensures var line := Terminated(HpoCommand.TotalLine(n));
      !StartsWith(line, "#Subontology") && !StartsWith(line, "#Created after") && StartsWith(line, "#Total")
      && ColonField(line) == Ok(" " + IntToString(n))
  {
    var b := " " + IntToString(n);
    var line := Terminated("#Total" + ":" + b);
    assert HpoCommand.TotalLine(n) == "#Total" + ":" + b;
    assert line[1] == 'T';
    DiffersAt(line, "#Subontology", 1);
    DiffersAt(line, "#Created after", 1);
    assert StartsWith("#Total", "#Total") && ':' !in "#Total";
    SpacedNumber(n);
    SummaryLine("#Total", "#Total", b);
  }

  /** "#Total: n" gives n as total. */
  lemma TotalRead(st: HpoScan, n: int)
    ensures HpoStep(st, Terminated(HpoCommand.TotalLine(n))) == Ok(st.(total := Some(n)))
  {
    TotalText(n);
    SpacedNumber(n);
    HpoTotalStep(st, Terminated(HpoCommand.TotalLine(n)), " " + IntToString(n), n);
  }

  /** A line that does not start with '#' changes no variable of run_phenotools. */
  lemma PlainLineHpo(st: HpoScan, line: string)
    requires |line| > 0 && line[0] != '#'
    ensures HpoStep(st, line) == Ok(st)
  {
    DiffersAt(line, "#Subontology", 0);
    DiffersAt(line, "#Created after", 0);
    DiffersAt(line, "#Total", 0);
  }

  /** A two-line list, each with its line end. */
  lemma MappedTwo(first: string, second: string)
    ensures Mapped([first, second], Terminated) == [Terminated(first), Terminated(second)]
  {
    MappedMeaning([first, second], Terminated);
  }

  /** A row for a descendant starts with its id and holds no line end. */
  lemma DescendantRowPlain(d: TermId, t: Ontology.TermData, created: Dates.Tm, w: HpoCommand.Window)
    requires |d.value| > 0 && '\n' !in d.value && '\n' !in t.name
    ensures var row := HpoCommand.DescendantRow(d, t, created, w);
      |row| > 0 && row[0] == d.value[0] && '\n' !in row
  {
    PlainDateLineFree(created);
  }

  /** A date as the rows write it holds no line end. */
  lemma PlainDateLineFree(created: Dates.Tm)
    ensures '\n' !in Dates.PlainDate(created)
  {
    IntToStringPlain(created.year + 1900);
    IntToStringPlain(created.mon + 1);
    IntToStringPlain(created.mday);
  }

  /** A line that starts with something other than '#' and holds no line end. */
  predicate PlainRow(line: string) {
    |line| > 0 && line[0] != '#' && '\n' !in line
  }

  /** Lines none of which holds a line end, as PyLinesWritten asks. */
  predicate LineFree(lines: seq<string>) {
    forall k :: 0 <= k < |lines| ==> '\n' !in lines[k]
  }

  /** The descendant rows start with the id of the descendant and hold no line end. */
  lemma {:induction false} RowsPlain(descs: seq<TermId>, terms: map<string, Ontology.TermData>, creation: Ontology.TermData -> Dates.Tm,
                                     w: HpoCommand.Window)
    requires forall k :: 0 <= k < |descs| ==> |descs[k].value| > 0 && descs[k].value[0] != '#' && '\n' !in descs[k].value
    requires forall key :: key in terms ==> '\n' !in terms[key].name
    ensures forall k :: 0 <= k < |HpoCommand.Rows(descs, terms, creation, w)| ==> PlainRow(HpoCommand.Rows(descs, terms, creation, w)[k])
  {
    if |descs| > 0 {
      var d := descs[|descs| - 1];
      var prefix := descs[..|descs| - 1];
      RowsPlain(prefix, terms, creation, w);
      var before := HpoCommand.Rows(prefix, terms, creation, w);
      match HpoCommand.Lookup(terms, d)
      case None =>
        assert HpoCommand.Rows(descs, terms, creation, w) == before;
      case Some(t) =>
        assert d.value in terms && t == terms[d.value];
        var row := HpoCommand.DescendantRow(d, t, creation(t), w);
        DescendantRowPlain(d, t, creation(t), w);
        assert HpoCommand.Rows(descs, terms, creation, w) == before + [row];
    }
  }

  /** The first two lines set the id and the name of the subontology. */
  lemma HpoHeadScan(tid: TermId, termLabel: string)
    requires |tid.value| == 10 && StartsWith(tid.value, "HP:")
    ensures Scan(Unset, Mapped([HpoCommand.SubontologyLine(tid, termLabel), HpoCommand.ColumnHeader], Terminated), HpoStep)
      == Ok(Unset.(id := Some(tid.value + " "), name := Some(Strip(RemoveChar(termLabel, ')')))))
  {
    var sub := HpoCommand.SubontologyLine(tid, termLabel);
    MappedTwo(sub, HpoCommand.ColumnHeader);
    ScanTwo(Unset, Terminated(sub), Terminated(HpoCommand.ColumnHeader), HpoStep);
    SubontologyRead(Unset, tid, termLabel);
    ColumnHeaderRead(Unset.(id := Some(tid.value + " "), name := Some(Strip(RemoveChar(termLabel, ')')))));
  }

  /** Rows that do not start with '#' leave the variables as they were. */
  lemma HpoRowsScan(st: HpoScan, rows: seq<string>)
    requires forall k :: 0 <= k < |rows| ==> PlainRow(rows[k])
    ensures Scan(st, Mapped(rows, Terminated), HpoStep) == Ok(st)
  {
    var lines := Mapped(rows, Terminated);
    MappedMeaning(rows, Terminated);
    forall k | 0 <= k < |lines| ensures HpoStep(st, lines[k]) == Ok(st) {
      assert lines[k][0] == rows[k][0];
      PlainLineHpo(st, lines[k]);
    }
    ScanUnchanged(st, lines, HpoStep);
  }

  /** The last two lines set the two counts. */
  lemma HpoTailScan(st: HpoScan, thresholdText: string, newer: int, total: int)
    requires ':' !in thresholdText
    ensures Scan(st, Mapped([HpoCommand.CreatedLine(thresholdText, newer), HpoCommand.TotalLine(total)], Terminated), HpoStep)
      == Ok(st.(createdAfter := Some(newer), total := Some(total)))
  {
    var created := HpoCommand.CreatedLine(thresholdText, newer);
    MappedTwo(created, HpoCommand.TotalLine(total));
    ScanTwo(st, Terminated(created), Terminated(HpoCommand.TotalLine(total)), HpoStep);
    CreatedRead(st, thresholdText, newer);
    TotalRead(st.(createdAfter := Some(newer)), total);
  }

  /** No line of the corrected report holds a line end. */
  lemma ReportPlain(s: HpoCommand.Settings, tid: TermId, descs: seq<TermId>, terms: map<string, Ontology.TermData>,
                    creation: Ontology.TermData -> Dates.Tm)
    requires tid.value in terms && '\n' !in tid.value && '\n' !in s.thresholdText
    requires forall k :: 0 <= k < |descs| ==> |descs[k].value| > 0 && descs[k].value[0] != '#' && '\n' !in descs[k].value
    requires forall key :: key in terms ==> '\n' !in terms[key].name
    ensures LineFree(HpoCommand.Report(s, tid, descs, terms, creation))
  {
    var n := HpoCommand.InWindowCount(descs, terms, creation, s.window);
    var rows := HpoCommand.Rows(descs, terms, creation, s.window);
    var head := [HpoCommand.SubontologyLine(tid, terms[tid.value].name), HpoCommand.ColumnHeader];
    var tail := [HpoCommand.CreatedLine(s.thresholdText, n), HpoCommand.TotalLine(|descs|)];
    RowsPlain(descs, terms, creation, s.window);
    ColumnHeaderPlain();
    IntToStringPlain(n);
    IntToStringPlain(|descs|);
    assert '\n' !in head[0];
    assert '\n' !in tail[0];
    assert '\n' !in tail[1];
    var lines := head + rows + tail;
    assert HpoCommand.Report(s, tid, descs, terms, creation) == lines;
    forall k | 0 <= k < |lines| ensures '\n' !in lines[k] {
      if 2 <= k < 2 + |rows| {
        assert lines[k] == rows[k - 2] && PlainRow(rows[k - 2]);
      }
    }
  }

  /** The column header and the fixed text of the other lines hold no line end. */
  lemma ColumnHeaderPlain()
    ensures '\n' !in HpoCommand.ColumnHeader
    ensures '\n' !in "#Subontology: " && '\n' !in "#Created after " && '\n' !in "#Total: "
  {
  }

  /**
   * What the corrected "hpo" command writes, read back by run_phenotools:
   * the id of the target with the space after it, its label, the number
   * of descendants created in the window and the number of descendants.
   */
  lemma HpoReportReadBack(s: HpoCommand.Settings, tid: TermId, descs: seq<TermId>, terms: map<string, Ontology.TermData>,
                          creation: Ontology.TermData -> Dates.Tm)
    requires tid.value in terms
    requires |tid.value| == 10 && StartsWith(tid.value, "HP:") && '\n' !in tid.value
    requires ':' !in s.thresholdText && '\n' !in s.thresholdText
    requires forall k :: 0 <= k < |descs| ==> |descs[k].value| > 0 && descs[k].value[0] != '#' && '\n' !in descs[k].value
    requires forall key :: key in terms ==> '\n' !in terms[key].name
    ensures HpoRecordOf(PyLines(Written(HpoCommand.Report(s, tid, descs, terms, creation))))
      == Ok(HpoRecord(tid.value + " ", Strip(RemoveChar(terms[tid.value].name, ')')),
                      HpoCommand.InWindowCount(descs, terms, creation, s.window), |descs|))
  {
    var termLabel := terms[tid.value].name;
    var n := HpoCommand.InWindowCount(descs, terms, creation, s.window);
    var head := [HpoCommand.SubontologyLine(tid, termLabel), HpoCommand.ColumnHeader];
    var rows := HpoCommand.Rows(descs, terms, creation, s.window);
    var tail := [HpoCommand.CreatedLine(s.thresholdText, n), HpoCommand.TotalLine(|descs|)];
    assert HpoCommand.Report(s, tid, descs, terms, creation) == head + rows + tail;
    ReportPlain(s, tid, descs, terms, creation);
    PyLinesWritten(head + rows + tail);
    MappedAppend(head + rows, tail, Terminated);
    MappedAppend(head, rows, Terminated);
    var st1 := Unset.(id := Some(tid.value + " "), name := Some(Strip(RemoveChar(termLabel, ')'))));
    HpoHeadScan(tid, termLabel);
    RowsPlain(descs, terms, creation, s.window);
    HpoRowsScan(st1, rows);
    HpoTailScan(st1, s.thresholdText, n, |descs|);
    ScanAppend(Unset, Mapped(head, Terminated), Mapped(rows, Terminated), HpoStep);
    ScanAppend(Unset, Mapped(head, Terminated) + Mapped(rows, Terminated), Mapped(tail, Terminated), HpoStep);
  }

  /**
   * As written, the "hpo" command writes no count lines when none of the
   * descendants is in the ontology, and run_phenotools then raises the
   * ValueError for createdAfter.
   */
  lemma AsWrittenHpoReportWithoutRows(s: HpoCommand.Settings, tid: TermId, descs: seq<TermId>, terms: map<string, Ontology.TermData>,
                                      creation: Ontology.TermData -> Dates.Tm)
    requires tid.value in terms
    requires |tid.value| == 10 && StartsWith(tid.value, "HP:") && '\n' !in tid.value
    requires '\n' !in terms[tid.value].name
    requires HpoCommand.FoundCount(descs, terms) == 0
    ensures HpoRecordOf(PyLines(Written(HpoCommand.AsWrittenReport(s, tid, descs, terms, creation))))
      == Err(ValueError("Could not find createdAfter"))
  {
    var termLabel := terms[tid.value].name;
    var head := [HpoCommand.SubontologyLine(tid, termLabel), HpoCommand.ColumnHeader];
    HpoCommand.AsWrittenRowsWithoutFound(descs, terms, creation, s.window, s.thresholdText);
    assert HpoCommand.AsWrittenReport(s, tid, descs, terms, creation) == head + [];
    assert head + [] == head;
    ColumnHeaderPlain();
    assert '\n' !in head[0];
    PyLinesWritten(head);
    HpoHeadScan(tid, termLabel);
  }

  /** The rows as written, each followed by its two count lines, hold no line end. */
  lemma {:induction false} AsWrittenRowsLineFree(descs: seq<TermId>, terms: map<string, Ontology.TermData>, creation: Ontology.TermData -> Dates.Tm,
                                                  w: HpoCommand.Window, thresholdText: string)
    requires forall k :: 0 <= k < |descs| ==> |descs[k].value| > 0 && '\n' !in descs[k].value
    requires forall key :: key in terms ==> '\n' !in terms[key].name
    requires '\n' !in thresholdText
    ensures LineFree(HpoCommand.AsWrittenRows(descs, terms, creation, w, thresholdText))
  {
    if |descs| > 0 {
      var d := descs[|descs| - 1];
      var prefix := descs[..|descs| - 1];
      AsWrittenRowsLineFree(prefix, terms, creation, w, thresholdText);
      var before := HpoCommand.AsWrittenRows(prefix, terms, creation, w, thresholdText);
      match HpoCommand.Lookup(terms, d)
      case None =>
        assert HpoCommand.AsWrittenRows(descs, terms, creation, w, thresholdText) == before;
      case Some(t) =>
        assert d.value in terms && t == terms[d.value];
        var n := HpoCommand.InWindowCount(descs, terms, creation, w);
        var tail := [HpoCommand.DescendantRow(d, t, creation(t), w), HpoCommand.CreatedLine(thresholdText, n), HpoCommand.TotalLine(|descs|)];
        DescendantRowPlain(d, t, creation(t), w);
        ColumnHeaderPlain();
        IntToStringPlain(n);
        IntToStringPlain(|descs|);
        assert '\n' !in tail[1] && '\n' !in tail[2];
        var lines := before + tail;
        assert HpoCommand.AsWrittenRows(descs, terms, creation, w, thresholdText) == lines;
        forall k | 0 <= k < |lines| ensures '\n' !in lines[k] {
          if k >= |before| {
            assert lines[k] == tail[k - |before|];
          }
        }
    }
  }

  /** A row followed by its two count lines sets the two counts, whatever came before. */
  lemma AsWrittenTripleScan(st: HpoScan, st1: HpoScan, before: seq<string>, row: string, thresholdText: string, n: int, total: int)
    requires Scan(st, Mapped(before, Terminated), HpoStep) == Ok(st1)
    requires PlainRow(row) && ':' !in thresholdText
    ensures Scan(st, Mapped(before + [row] + [HpoCommand.CreatedLine(thresholdText, n), HpoCommand.TotalLine(total)], Terminated), HpoStep)
      == Ok(st1.(createdAfter := Some(n), total := Some(total)))
  {
    var counts := [HpoCommand.CreatedLine(thresholdText, n), HpoCommand.TotalLine(total)];
    HpoRowsScan(st1, [row]);
    HpoTailScan(st1, thresholdText, n, total);
    MappedAppend(before + [row], counts, Terminated);
    MappedAppend(before, [row], Terminated);
    ScanAppend(st, Mapped(before, Terminated), Mapped([row], Terminated), HpoStep);
    ScanAppend(st, Mapped(before, Terminated) + Mapped([row], Terminated), Mapped(counts, Terminated), HpoStep);
  }

  /** The variables after the rows as written: untouched until a descendant is found, then the counts up to the last one found. */
  function AfterAsWrittenRows(st: HpoScan, descs: seq<TermId>, terms: map<string, Ontology.TermData>,
                              creation: Ontology.TermData -> Dates.Tm, w: HpoCommand.Window): HpoScan
  {
    var p := HpoCommand.FoundPrefix(descs, terms);
    if p == 0 then st
    else st.(createdAfter := Some(HpoCommand.InWindowCount(descs[..p], terms, creation, w)), total := Some(p))
  }

  /** The variables after the rows as written for all the descendants, from those for all but the last. */
  lemma AfterAsWrittenRowsStep(st: HpoScan, descs: seq<TermId>, terms: map<string, Ontology.TermData>,
                               creation: Ontology.TermData -> Dates.Tm, w: HpoCommand.Window)
    requires |descs| > 0
    ensures var prefix := descs[..|descs| - 1];
      AfterAsWrittenRows(st, descs, terms, creation, w)
      == if HpoCommand.Lookup(terms, descs[|descs| - 1]).None? then AfterAsWrittenRows(st, prefix, terms, creation, w)
         else AfterAsWrittenRows(st, prefix, terms, creation, w).(createdAfter := Some(HpoCommand.InWindowCount(descs, terms, creation, w)),
                                                                   total := Some(|descs|))
  {
    var prefix := descs[..|descs| - 1];
    var p := HpoCommand.FoundPrefix(prefix, terms);
    assert descs[..p] == prefix[..p];
    assert descs[..|descs|] == descs;
  }

  /** A descendant the ontology has writes its row and the two counts, which set the two variables. */
  lemma AsWrittenRowsScanFound(st: HpoScan, descs: seq<TermId>, terms: map<string, Ontology.TermData>,
                               creation: Ontology.TermData -> Dates.Tm, w: HpoCommand.Window, thresholdText: string)
    requires |descs| > 0 && HpoCommand.Lookup(terms, descs[|descs| - 1]).Some?
    requires var d := descs[|descs| - 1]; |d.value| > 0 && d.value[0] != '#' && '\n' !in d.value && '\n' !in terms[d.value].name
    requires ':' !in thresholdText
    requires Scan(st, Mapped(HpoCommand.AsWrittenRows(descs[..|descs| - 1], terms, creation, w, thresholdText), Terminated), HpoStep)
      == Ok(AfterAsWrittenRows(st, descs[..|descs| - 1], terms, creation, w))
    ensures Scan(st, Mapped(HpoCommand.AsWrittenRows(descs, terms, creation, w, thresholdText), Terminated), HpoStep)
      == Ok(AfterAsWrittenRows(st, descs, terms, creation, w))
  {
    var k := |descs| - 1;
    var d := descs[k];
    var t := terms[d.value];
    var n := HpoCommand.InWindowCount(descs, terms, creation, w);
    AsWrittenRowsFoundStep(st, descs, terms, creation, w, thresholdText);
    AsWrittenTripleScan(st, AfterAsWrittenRows(st, descs[..k], terms, creation, w),
                        HpoCommand.AsWrittenRows(descs[..k], terms, creation, w, thresholdText),
                        HpoCommand.DescendantRow(d, t, creation(t), w), thresholdText, n, |descs|);
  }

  /** A descendant the ontology has adds its row and the two counts, and sets the variables to those counts. */
  lemma AsWrittenRowsFoundStep(st: HpoScan, descs: seq<TermId>, terms: map<string, Ontology.TermData>,
                               creation: Ontology.TermData -> Dates.Tm, w: HpoCommand.Window, thresholdText: string)
    requires |descs| > 0 && HpoCommand.Lookup(terms, descs[|descs| - 1]).Some?
    requires var d := descs[|descs| - 1]; |d.value| > 0 && d.value[0] != '#' && '\n' !in d.value && '\n' !in terms[d.value].name
    ensures var k := |descs| - 1;
      var t := terms[descs[k].value];
      var row := HpoCommand.DescendantRow(descs[k], t, creation(t), w);
      var n := HpoCommand.InWindowCount(descs, terms, creation, w);
      && PlainRow(row)
      && HpoCommand.AsWrittenRows(descs, terms, creation, w, thresholdText)
         == HpoCommand.AsWrittenRows(descs[..k], terms, creation, w, thresholdText) + [row]
            + [HpoCommand.CreatedLine(thresholdText, n), HpoCommand.TotalLine(|descs|)]
      && AfterAsWrittenRows(st, descs, terms, creation, w)
         == AfterAsWrittenRows(st, descs[..k], terms, creation, w).(createdAfter := Some(n), total := Some(|descs|))
  {
    var k := |descs| - 1;
    var d := descs[k];
    var t := terms[d.value];
    HpoCommand.AsWrittenRowsStep(descs, k, terms, creation, w, thresholdText);
    assert descs[..k + 1] == descs;
    DescendantRowPlain(d, t, creation(t), w);
    AfterAsWrittenRowsStep(st, descs, terms, creation, w);
  }

  /** A descendant the ontology lacks writes nothing and changes nothing. */
  lemma AsWrittenRowsScanMissing(st: HpoScan, descs: seq<TermId>, terms: map<string, Ontology.TermData>,
                                 creation: Ontology.TermData -> Dates.Tm, w: HpoCommand.Window, thresholdText: string)
    requires |descs| > 0 && HpoCommand.Lookup(terms, descs[|descs| - 1]).None?
    requires Scan(st, Mapped(HpoCommand.AsWrittenRows(descs[..|descs| - 1], terms, creation, w, thresholdText), Terminated), HpoStep)
      == Ok(AfterAsWrittenRows(st, descs[..|descs| - 1], terms, creation, w))
    ensures Scan(st, Mapped(HpoCommand.AsWrittenRows(descs, terms, creation, w, thresholdText), Terminated), HpoStep)
      == Ok(AfterAsWrittenRows(st, descs, terms, creation, w))
  {
    AsWrittenRowsMissingStep(st, descs, terms, creation, w, thresholdText);
  }

  /** A descendant the ontology lacks adds no line and leaves the variables as they were. */
  lemma AsWrittenRowsMissingStep(st: HpoScan, descs: seq<TermId>, terms: map<string, Ontology.TermData>,
                                 creation: Ontology.TermData -> Dates.Tm, w: HpoCommand.Window, thresholdText: string)
    requires |descs| > 0 && HpoCommand.Lookup(terms, descs[|descs| - 1]).None?
    ensures HpoCommand.AsWrittenRows(descs, terms, creation, w, thresholdText)
      == HpoCommand.AsWrittenRows(descs[..|descs| - 1], terms, creation, w, thresholdText)
    ensures AfterAsWrittenRows(st, descs, terms, creation, w) == AfterAsWrittenRows(st, descs[..|descs| - 1], terms, creation, w)
  {
    AfterAsWrittenRowsStep(st, descs, terms, creation, w);
  }

  /**
   * Read back, the rows as written leave the counts of the last descendant
   * the ontology has: the number in the window among the descendants up to
   * it, and its position counting from one.
   */
  lemma {:induction false} AsWrittenRowsScan(st: HpoScan, descs: seq<TermId>, terms: map<string, Ontology.TermData>,
                                             creation: Ontology.TermData -> Dates.Tm, w: HpoCommand.Window, thresholdText: string)
    requires forall k :: 0 <= k < |descs| ==> |descs[k].value| > 0 && descs[k].value[0] != '#' && '\n' !in descs[k].value
    requires forall key :: key in terms ==> '\n' !in terms[key].name
    requires ':' !in thresholdText
    ensures Scan(st, Mapped(HpoCommand.AsWrittenRows(descs, terms, creation, w, thresholdText), Terminated), HpoStep)
      == Ok(AfterAsWrittenRows(st, descs, terms, creation, w))
  {
    if |descs| == 0 {
      MappedMeaning([], Terminated);
    } else {
      var k := |descs| - 1;
      AsWrittenRowsScan(st, descs[..k], terms, creation, w, thresholdText);
      if HpoCommand.Lookup(terms, descs[k]).Some? {
        AsWrittenRowsScanFound(st, descs, terms, creation, w, thresholdText);
      } else {
        AsWrittenRowsScanMissing(st, descs, terms, creation, w, thresholdText);
      }
    }
  }

  /** No line of the report as written holds a line end. */
  lemma AsWrittenReportLineFree(s: HpoCommand.Settings, tid: TermId, descs: seq<TermId>, terms: map<string, Ontology.TermData>,
                                creation: Ontology.TermData -> Dates.Tm)
    requires tid.value in terms && '\n' !in tid.value && '\n' !in s.thresholdText
    requires forall k :: 0 <= k < |descs| ==> |descs[k].value| > 0 && '\n' !in descs[k].value
    requires forall key :: key in terms ==> '\n' !in terms[key].name
    ensures LineFree(HpoCommand.AsWrittenReport(s, tid, descs, terms, creation))
  {
    var head := [HpoCommand.SubontologyLine(tid, terms[tid.value].name), HpoCommand.ColumnHeader];
    var rows := HpoCommand.AsWrittenRows(descs, terms, creation, s.window, s.thresholdText);
    assert HpoCommand.AsWrittenReport(s, tid, descs, terms, creation) == head + rows;
    ColumnHeaderPlain();
    assert '\n' !in head[0];
    AsWrittenRowsLineFree(descs, terms, creation, s.window, s.thresholdText);
    var lines := head + rows;
    forall k | 0 <= k < |lines| ensures '\n' !in lines[k] {
      if k >= 2 {
        assert lines[k] == rows[k - 2];
      }
    }
  }

  /**
   * What the "hpo" command writes as written, read back by run_phenotools
   * once some descendant is in the ontology: the number in the window is
   * right, but the total stops at the last descendant the ontology has,
   * so it falls short of the number of descendants exactly when the last
   * descendant is missing from the ontology.
   */
  lemma AsWrittenHpoReportReadBack(s: HpoCommand.Settings, tid: TermId, descs: seq<TermId>, terms: map<string, Ontology.TermData>,
                                   creation: Ontology.TermData -> Dates.Tm)
    requires tid.value in terms
    requires |tid.value| == 10 && StartsWith(tid.value, "HP:") && '\n' !in tid.value
    requires ':' !in s.thresholdText && '\n' !in s.thresholdText
    requires forall k :: 0 <= k < |descs| ==> |descs[k].value| > 0 && descs[k].value[0] != '#' && '\n' !in descs[k].value
    requires forall key :: key in terms ==> '\n' !in terms[key].name
    requires HpoCommand.FoundCount(descs, terms) > 0
    ensures HpoRecordOf(PyLines(Written(HpoCommand.AsWrittenReport(s, tid, descs, terms, creation))))
      == Ok(HpoRecord(tid.value + " ", Strip(RemoveChar(terms[tid.value].name, ')')),
                      HpoCommand.InWindowCount(descs, terms, creation, s.window), HpoCommand.FoundPrefix(descs, terms)))
    ensures HpoCommand.FoundPrefix(descs, terms) == |descs| <==> HpoCommand.Lookup(terms, descs[|descs| - 1]).Some?
  {
    var termLabel := terms[tid.value].name;
    var head := [HpoCommand.SubontologyLine(tid, termLabel), HpoCommand.ColumnHeader];
    var rows := HpoCommand.AsWrittenRows(descs, terms, creation, s.window, s.thresholdText);
    assert HpoCommand.AsWrittenReport(s, tid, descs, terms, creation) == head + rows;
    HpoCommand.FoundPrefixCounts(descs, terms, creation, s.window);
    AsWrittenReportLineFree(s, tid, descs, terms, creation);
    PyLinesWritten(head + rows);
    MappedAppend(head, rows, Terminated);
    var st1 := Unset.(id := Some(tid.value + " "), name := Some(Strip(RemoveChar(termLabel, ')'))));
    HpoHeadScan(tid, termLabel);
    AsWrittenRowsScan(st1, descs, terms, creation, s.window, s.thresholdText);
    ScanAppend(Unset, Mapped(head, Terminated), Mapped(rows, Terminated), HpoStep);
  }

  // ------------------------------------------ the "annotation" command

  /** The first line, "#HP:… (label)", changes nothing. */
  lemma AnnotHeaderRead(st: AnnotScan, tid: TermId, termLabel: string)
    requires StartsWith(tid.value, "HP:")
    ensures AnnotStep(st, Terminated(AnnotCommand.Header(tid, termLabel))) == Ok(st)
  {
    var line := Terminated(AnnotCommand.Header(tid, termLabel));
    assert line[1] == tid.value[0] == 'H';
    DiffersAt(line, "#total annotations to", 1);
    DiffersAt(line, "#total annotations newer", 1);
  }

  /** How run_phenotools_annotations reads a "#total annotations to" line whose field after the first ':' is a number. */
  lemma AnnotTotalStep(st: AnnotScan, line: string, field: string, n: int)
    requires StartsWith(line, "#total annotations to")
    requires ColonField(line) == Ok(field) && Int(field) == Ok(n)
    ensures AnnotStep(st, line) == Ok(st.(total := Some(n)))
  {
  }

  /** How run_phenotools_annotations reads a "#total annotations newer" line whose field after the first ':' is a number. */
  lemma AnnotNewerStep(st: AnnotScan, line: string, field: string, n: int)
    requires !StartsWith(line, "#total annotations to") && StartsWith(line, "#total annotations newer")
    requires ColonField(line) == Ok(field) && Int(field) == Ok(n)
    ensures AnnotStep(st, line) == Ok(st.(createdAfter := Some(n)))
  {
  }

  /** The fixed text of the two annotation summary lines holds no ':'. */
  lemma AnnotPrefixesColonFree()
    ensures ':' !in "#total annotations to terms descending from "
    ensures ':' !in "#total annotations newer than "
  {
  }

  /** The fixed text of the two annotation summary lines holds no line end. */
  lemma AnnotPrefixesLineFree()
    ensures '\n' !in "#total annotations to terms descending from "
    ensures '\n' !in "#total annotations newer than "
  {
  }

  /** The annotation total line with its line end: it starts with "#total annotations to" and its field after the ':' is n. */
  lemma AnnotTotalText(termLabel: string, n: int)
    requires ':' !in termLabel
    ensures var line := Terminated(AnnotCommand.TotalLine(termLabel, n));
      StartsWith(line, "#total annotations to") && ColonField(line) == Ok(IntToString(n))
  {
    var a := "#total annotations to terms descending from " + termLabel;
    var b := IntToString(n);
    assert StartsWith(a, "#total annotations to") by {
      assert a == "#total annotations to" + (" terms descending from " + termLabel);
    }
    assert ':' !in a by {
      AnnotPrefixesColonFree();
    }
    assert ':' !in b && '\n' !in b && |b| > 0 by {
      IntToStringPlain(n);
    }
    SummaryLine(a, "#total annotations to", b);
    assert AnnotCommand.TotalLine(termLabel, n) == a + ":" + b;
  }

  /** "#total annotations to terms descending from <label>:n" gives n as total, when the label holds no ':'. */
  lemma AnnotTotalRead(st: AnnotScan, termLabel: string, n: int)
    requires ':' !in termLabel
    ensures AnnotStep(st, Terminated(AnnotCommand.TotalLine(termLabel, n))) == Ok(st.(total := Some(n)))
  {
    AnnotTotalText(termLabel, n);
    IntOfIntToString(n);
    AnnotTotalStep(st, Terminated(AnnotCommand.TotalLine(termLabel, n)), IntToString(n), n);
  }

  /** The newer line with its line end: it starts with "#total annotations newer", not "…to", and its field after the ':' is n. */
  lemma AnnotNewerText(date: string, n: int)
    requires ':' !in date
    ensures var line := Terminated(AnnotCommand.NewerLine(date, n));
      !StartsWith(line, "#total annotations to") && StartsWith(line, "#total annotations newer")
      && ColonField(line) == Ok(IntToString(n))
  {
    var a := "#total annotations newer than " + date;
    var b := IntToString(n);
    var line := Terminated(a + ":" + b);
    assert AnnotCommand.NewerLine(date, n) == a + ":" + b;
    assert line[19] == a[19] == 'n';
    DiffersAt(line, "#total annotations to", 19);
    assert a == "#total annotations newer" + (" than " + date);
    assert a[..24] == "#total annotations newer";
    AnnotPrefixesColonFree();
    IntToStringPlain(n);
    SummaryLine(a, "#total annotations newer", b);
  }

  /** "#total annotations newer than <date>:n" gives n as createdAfter, when the date holds no ':'. */
  lemma AnnotNewerRead(st: AnnotScan, date: string, n: int)
    requires ':' !in date
    ensures AnnotStep(st, Terminated(AnnotCommand.NewerLine(date, n))) == Ok(st.(createdAfter := Some(n)))
  {
    AnnotNewerText(date, n);
    IntOfIntToString(n);
    AnnotNewerStep(st, Terminated(AnnotCommand.NewerLine(date, n)), IntToString(n), n);
  }

  /** A newer line whose date holds two ':', regrouped around them. */
  lemma NewerLineWithColons(h: string, m: string, sec: string, n: int)
    ensures AnnotCommand.NewerLine(h + ":" + m + ":" + sec, n)
            == ("#total annotations newer than " + h) + ":" + m + ":" + (sec + ":" + IntToString(n))
  {
  }

  /** The newer line with its line end starts with "#total annotations newer", and not with "…to", whatever the date. */
  lemma NewerPrefix(date: string, n: int)
    ensures var line := Terminated(AnnotCommand.NewerLine(date, n));
      !StartsWith(line, "#total annotations to") && StartsWith(line, "#total annotations newer")
  {
    var line := Terminated(AnnotCommand.NewerLine(date, n));
    assert line[19] == 'n';
    DiffersAt(line, "#total annotations to", 19);
    assert line[..24] == "#total annotations newer";
  }

  /** A newer line whose date holds two ':': its field after the first ':' is the date's minutes. */
  lemma NewerTextWithColons(h: string, m: string, sec: string, n: int)
    requires ':' !in h && ':' !in m
    ensures var line := Terminated(AnnotCommand.NewerLine(h + ":" + m + ":" + sec, n));
      !StartsWith(line, "#total annotations to") && StartsWith(line, "#total annotations newer")
      && ColonField(line) == Ok(m)
  {
    var a := "#total annotations newer than " + h;
    var c := sec + ":" + IntToString(n);
    NewerLineWithColons(h, m, sec, n);
    IntToStringPlain(n);
    assert c[|c| - 1] == IntToString(n)[|IntToString(n)| - 1];
    AnnotPrefixesColonFree();
    assert ':' !in a;
    SecondColonField(a, m, c);
    NewerPrefix(h + ":" + m + ":" + sec, n);
  }

  /**
   * The annotation command writes its --date as given too: the newer line
   * of a count of 5 after 2019-01-01T10:20:30Z is read as 20.
   */
  lemma AsWrittenTimestampMisreadsNewer(st: AnnotScan)
    ensures AnnotStep(st, Terminated(AnnotCommand.NewerLine("2019-01-01T10:20:30Z", 5))) == Ok(st.(createdAfter := Some(20)))
  {
    TimestampDate();
    NewerTextWithColons("2019-01-01T10", "20", "30Z", 5);
    TwentyRead();
    AnnotNewerStep(st, Terminated(AnnotCommand.NewerLine("2019-01-01T10:20:30Z", 5)), "20", 20);
  }

  /** Read after its last ':', the newer line gives back its count for every date. */
  lemma NewerFieldAnyDate(date: string, n: int)
    ensures var line := Terminated(AnnotCommand.NewerLine(date, n));
      StartsWith(line, "#total annotations newer") && LastColonField(line) == Ok(IntToString(n))
      && Int(LastColonField(line).value) == Ok(n)
  {
    var a := "#total annotations newer than " + date;
    var b := IntToString(n);
    var line := Terminated(a + ":" + b);
    assert AnnotCommand.NewerLine(date, n) == a + ":" + b;
    NewerPrefix(date, n);
    IntToStringPlain(n);
    IntOfIntToString(n);
    LastSummaryField(a, b);
  }

  /** Read after its last ':', the total line gives back its count for every label. */
  lemma TotalFieldAnyLabel(termLabel: string, n: int)
    ensures var line := Terminated(AnnotCommand.TotalLine(termLabel, n));
      StartsWith(line, "#total annotations to") && LastColonField(line) == Ok(IntToString(n))
      && Int(LastColonField(line).value) == Ok(n)
  {
    var a := "#total annotations to terms descending from " + termLabel;
    var b := IntToString(n);
    var line := Terminated(a + ":" + b);
    assert AnnotCommand.TotalLine(termLabel, n) == a + ":" + b;
    assert line[..21] == a[..21] == "#total annotations to";
    IntToStringPlain(n);
    IntOfIntToString(n);
    LastSummaryField(a, b);
  }

  /** An OMIM annotation's row starts with the 'O' of its disease id. */
  lemma OmimRowPlain(a: HpoAnnotations.HpoAnnotation, curations: string)
    requires HpoAnnotations.IsOmim(a)
    ensures |AnnotCommand.RowWith(a, curations)| > 0 && AnnotCommand.RowWith(a, curations)[0] == 'O'
  {
    var v := a.diseaseId.value;
    assert |v| > 0 && v[0] == 'O' by {
      if a.diseaseId.sep <= |v| {
        assert v[..a.diseaseId.sep] == "OMIM";
        assert v[..a.diseaseId.sep][0] == v[0];
      }
    }
  }

  /** A line that does not start with '#' changes no variable of run_phenotools_annotations. */
  lemma PlainLineAnnot(st: AnnotScan, line: string)
    requires |line| > 0 && line[0] != '#'
    ensures AnnotStep(st, line) == Ok(st)
  {
    DiffersAt(line, "#total annotations to", 0);
    DiffersAt(line, "#total annotations newer", 0);
  }

  /** The rows of OMIM annotations start with 'O' and hold no line end. */
  lemma OmimRowsPlain(newer: seq<HpoAnnotations.HpoAnnotation>, corrected: bool)
    requires forall k :: 0 <= k < |newer| ==> HpoAnnotations.IsOmim(newer[k]) && RowLineFree(newer[k])
    ensures |AnnotCommand.Rows(newer, corrected)| == |newer|
    ensures forall k :: 0 <= k < |newer| ==> PlainRow(AnnotCommand.Rows(newer, corrected)[k])
  {
    if corrected {
      MappedMeaning(newer, AnnotCommand.Row);
      forall k | 0 <= k < |newer| ensures PlainRow(Mapped(newer, AnnotCommand.Row)[k]) {
        OmimRowPlain(newer[k], Join(HpoAnnotations.Texts(newer[k].curations), ';'));
      }
    } else {
      MappedMeaning(newer, AnnotCommand.AsWrittenRow);
      forall k | 0 <= k < |newer| ensures PlainRow(Mapped(newer, AnnotCommand.AsWrittenRow)[k]) {
        OmimRowPlain(newer[k], Join(HpoAnnotations.AsWrittenTexts(newer[k].curations), ';'));
      }
    }
  }

  /** Neither row of the annotation, as written or as intended, holds a line end. */
  predicate RowLineFree(a: HpoAnnotations.HpoAnnotation) {
    '\n' !in AnnotCommand.Row(a) && '\n' !in AnnotCommand.AsWrittenRow(a)
  }

  /** Rows that do not start with '#' leave the variables as they were. */
  lemma AnnotRowsScan(st: AnnotScan, rows: seq<string>)
    requires forall k :: 0 <= k < |rows| ==> PlainRow(rows[k])
    ensures Scan(st, Mapped(rows, Terminated), AnnotStep) == Ok(st)
  {
    var lines := Mapped(rows, Terminated);
    MappedMeaning(rows, Terminated);
    forall k | 0 <= k < |lines| ensures AnnotStep(st, lines[k]) == Ok(st) {
      assert lines[k][0] == rows[k][0];
      PlainLineAnnot(st, lines[k]);
    }
    ScanUnchanged(st, lines, AnnotStep);
  }

  /** The last two lines set the total, then the number of newer annotations. */
  lemma AnnotTailScan(st: AnnotScan, termLabel: string, total: int, date: string, newer: int)
    requires ':' !in termLabel && ':' !in date
    ensures Scan(st, Mapped([AnnotCommand.TotalLine(termLabel, total), AnnotCommand.NewerLine(date, newer)], Terminated), AnnotStep)
      == Ok(st.(total := Some(total), createdAfter := Some(newer)))
  {
    var totalLine := AnnotCommand.TotalLine(termLabel, total);
    MappedTwo(totalLine, AnnotCommand.NewerLine(date, newer));
    ScanTwo(st, Terminated(totalLine), Terminated(AnnotCommand.NewerLine(date, newer)), AnnotStep);
    AnnotTotalRead(st, termLabel, total);
    AnnotNewerRead(st.(total := Some(total)), date, newer);
  }

  /** The first line holds no line end. */
  lemma AnnotHeaderLineFree(tid: TermId, termLabel: string)
    requires '\n' !in tid.value && '\n' !in termLabel
    ensures '\n' !in AnnotCommand.Header(tid, termLabel)
  {
  }

  /** The two summary lines hold no line end. */
  lemma AnnotTailLineFree(termLabel: string, total: int, date: string, newer: int)
    requires '\n' !in termLabel && '\n' !in date
    ensures '\n' !in AnnotCommand.TotalLine(termLabel, total) && '\n' !in AnnotCommand.NewerLine(date, newer)
  {
    AnnotPrefixesLineFree();
    IntToStringPlain(total);
    IntToStringPlain(newer);
  }

  /** No line of the report holds a line end. */
  lemma AnnotReportPlain(tid: TermId, termLabel: string, rows: seq<string>, total: int, date: string, newer: int)
    requires '\n' !in tid.value && '\n' !in termLabel && '\n' !in date
    requires forall k :: 0 <= k < |rows| ==> PlainRow(rows[k])
    ensures LineFree([AnnotCommand.Header(tid, termLabel)] + rows
                     + [AnnotCommand.TotalLine(termLabel, total), AnnotCommand.NewerLine(date, newer)])
  {
    var head := [AnnotCommand.Header(tid, termLabel)];
    var tail := [AnnotCommand.TotalLine(termLabel, total), AnnotCommand.NewerLine(date, newer)];
    AnnotHeaderLineFree(tid, termLabel);
    AnnotTailLineFree(termLabel, total, date, newer);
    var lines := head + rows + tail;
    forall k | 0 <= k < |lines| ensures '\n' !in lines[k] {
      if 1 <= k < 1 + |rows| {
        assert lines[k] == rows[k - 1] && PlainRow(rows[k - 1]);
      }
    }
  }

  /**
   * What the "annotation" command writes, read back by
   * run_phenotools_annotations: the number of annotations newer than the
   * date and the number of annotations below the term.
   */
  lemma AnnotReportReadBack(tid: TermId, termLabel: string, newer: seq<HpoAnnotations.HpoAnnotation>, total: int, date: string, corrected: bool)
    requires StartsWith(tid.value, "HP:") && '\n' !in tid.value
    requires ':' !in termLabel && '\n' !in termLabel
    requires ':' !in date && '\n' !in date
    requires forall k :: 0 <= k < |newer| ==> HpoAnnotations.IsOmim(newer[k]) && RowLineFree(newer[k])
    ensures AnnotRecordOf(PyLines(Written([AnnotCommand.Header(tid, termLabel)] + AnnotCommand.Rows(newer, corrected)
              + [AnnotCommand.TotalLine(termLabel, total), AnnotCommand.NewerLine(date, |newer|)])))
      == Ok(AnnotRecord(|newer|, total))
  {
    var head := [AnnotCommand.Header(tid, termLabel)];
    var rows := AnnotCommand.Rows(newer, corrected);
    var tail := [AnnotCommand.TotalLine(termLabel, total), AnnotCommand.NewerLine(date, |newer|)];
    var start := AnnotScan(None, None);
    OmimRowsPlain(newer, corrected);
    AnnotReportPlain(tid, termLabel, rows, total, date, |newer|);
    PyLinesWritten(head + rows + tail);
    MappedAppend(head + rows, tail, Terminated);
    MappedAppend(head, rows, Terminated);
    assert Mapped(head, Terminated) == [Terminated(head[0])];
    ScanOne(start, Terminated(head[0]), AnnotStep);
    AnnotHeaderRead(start, tid, termLabel);
    AnnotRowsScan(start, rows);
    AnnotTailScan(start, termLabel, total, date, |newer|);
    ScanAppend(start, Mapped(head, Terminated), Mapped(rows, Terminated), AnnotStep);
    ScanAppend(start, Mapped(head, Terminated) + Mapped(rows, Terminated), Mapped(tail, Terminated), AnnotStep);
  }
}
