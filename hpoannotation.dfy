/**
 * The phenotype.hpoa annotation file: one tab-separated line per
 * disease-phenotype association, whose last field lists the biocurations
 * "curator[date]" separated by ';'.
 */
module HpoAnnotations {
  import opened Wrappers
  import opened Strings
  import opened TermIds
  import opened Dates

  /** The number of tab-separated fields an annotation line must have. */
  const ExpectedFields := 12

  // ----------------------------------------------------------- biocuration

  /** A curator and the date of the curation. */
  datatype Biocuration = Biocuration(curator: string, date: Tm)

  /**
   * The text the Biocuration constructor hands to sscanf. find_first_of('[')
   * and find_last_of(']') give npos for a missing character, and
   * substr(i + 1, j - i) computes with size_t: i + 1 wraps to 0 when there
   * is no '[', and j - i wraps to a huge count when ']' is missing or comes
   * first, so substr then runs to the end.
   */
  function Payload(s: string): string {
    match FindChar(s, '[')
    case None =>
      (match FindLastChar(s, ']')
       case None => ""
       case Some(j) => s[..j + 1])
    case Some(i) =>
      match FindLastChar(s, ']')
      case Some(j) => if j > i then s[i + 1..j + 1] else s[i + 1..]
      case None => s[i + 1..]
  }

  /** The curator: the text before the first '[', all of it when there is none. */
  function Curator(s: string): string {
    match FindChar(s, '[')
    case None => s
    case Some(i) => s[..i]
  }

  /**
   * The Biocuration constructor: the curator, and the date sscanf reads
   * from the payload; a date field sscanf does not assign is read
   * uninitialised.
   */
  function ParseBiocuration(s: string): (r: Result<Biocuration>)
    ensures r.Ok? ==> r.value.curator == Curator(s)
    ensures r.Err? ==> r.error == Unscanned
  {
    match StringToTime(Payload(s))
    case Err(e) => Err(e)
    case Ok(t) => Ok(Biocuration(Curator(s), t))
  }

  /** The date as to_string writes it: "[y-m-d]" without padding. */
  function DateTag(t: Tm): string {
    "[" + PlainDate(t) + "]"
  }

  /**
   * Biocuration::to_string as written: the stringstream is opened on the
   * curator with its put position at the start, so the date overwrites it.
   */
  function AsWrittenText(b: Biocuration): string {
    Overwrite(b.curator, DateTag(b.date))
  }

  /** Biocuration::to_string as evidently intended: the curator followed by the date. */
  function Text(b: Biocuration): string {
    b.curator + DateTag(b.date)
  }

  /** The constructor reads back what to_string writes, for a curator without '['. */
  lemma BiocurationRoundTrip(b: Biocuration)
    requires '[' !in b.curator
    ensures ParseBiocuration(Text(b)) == Ok(b)
  {
    PlainDateAvoids(b.date, '[');
    PlainDateAvoids(b.date, ']');
    TextLayout(b.curator, PlainDate(b.date));
    PlainDateRoundTrip(b.date, "]");
    ParseBiocurationOf(Text(b), b.curator, PlainDate(b.date) + "]", b.date);
  }

  /** A text with a given curator, whose payload holds a date, is that curation. */
  lemma ParseBiocurationOf(s: string, curator: string, payload: string, t: Tm)
    requires Curator(s) == curator && Payload(s) == payload && StringToTime(payload) == Ok(t)
    ensures ParseBiocuration(s) == Ok(Biocuration(curator, t))
  {
  }

  /** A date text holds no character other than digits and '-'. */
  lemma PlainDateAvoids(t: Tm, c: char)
    requires c != '-' && !IsDigit(c)
    ensures c !in PlainDate(t)
  {
    IntToStringChars(t.year + 1900, c);
    IntToStringChars(t.mon + 1, c);
    IntToStringChars(t.mday, c);
  }

  /** In "curator[date]" the curator is what comes before the '[' and the payload is "date]". */
  lemma TextLayout(curator: string, date: string)
    requires '[' !in curator && '[' !in date && ']' !in date
    ensures Curator(curator + ("[" + date + "]")) == curator
    ensures Payload(curator + ("[" + date + "]")) == date + "]"
  {
    var s := curator + ("[" + date + "]");
    var i := |curator|;
    assert FindChar(s, '[') == Some(i) by {
      assert s[i] == '[' && s[..i] == curator;
      FindCharAt(s, '[', i);
    }
    assert FindLastChar(s, ']') == Some(|s| - 1) by {
      FindLastCharAt(s, ']', |s| - 1);
    }
    assert s[i + 1..|s|] == date + "]";
  }

  /**
   * As written, the text starts with the '[' of the date, so it differs
   * from the intended one for every curator, and the constructor reads the
   * curator back as empty.
   */
  lemma AsWrittenTextLosesCurator(b: Biocuration)
    ensures FindChar(AsWrittenText(b), '[') == Some(0)
    ensures Curator(AsWrittenText(b)) == ""
    ensures b.curator != "" && '[' !in b.curator ==> AsWrittenText(b) != Text(b)
  {
    var r := AsWrittenText(b);
    assert r[0] == DateTag(b.date)[0] == '[';
    FindCharAt(r, '[', 0);
    if b.curator != "" && '[' !in b.curator {
      assert Text(b)[0] == b.curator[0];
    }
  }

  /** The curation "HPO:skoehler" of 2020-05-01 is written "[2020-5-1]er". */
  lemma AsWrittenTextExample()
    ensures AsWrittenText(Biocuration("HPO:skoehler", Tm(120, 4, 1))) == "[2020-5-1]er"
  {
    PlainDateExample();
    var r := AsWrittenText(Biocuration("HPO:skoehler", Tm(120, 4, 1)));
    assert r[..10] == "[2020-5-1]" && r[10..] == "er";
    assert r == r[..10] + r[10..];
  }

  /** The 1st of May 2020 is written "2020-5-1". */
  lemma PlainDateExample()
    ensures PlainDate(Tm(120, 4, 1)) == "2020-5-1"
  {
    assert NatToString(20) == "20";
    assert NatToString(202) == "202";
  }

  // ----------------------------------------------------------------- split

  /** split: the pieces std::getline reads with the delimiter, in order. */
  method Split(s: string, d: char) returns (fields: seq<string>)
    ensures fields == Pieces(s, d)
  {
    fields := [];
    var pos := 0;
    while pos < |s|
      invariant pos <= |s|
      invariant fields + Pieces(s[pos..], d) == Pieces(s, d)
      decreases |s| - pos
    {
      var rest := s[pos..];
      match FindChar(rest, d) {
        case None =>
          fields := fields + [rest];
          pos := |s|;
        case Some(i) =>
          fields := fields + [rest[..i]];
          assert rest[i + 1..] == s[pos + i + 1..];
          pos := pos + i + 1;
      }
    }
    assert fields + [] == fields;
  }

  // ------------------------------------------------------------ annotations

  /** One annotation line: the disease, its name, the NOT flag, the phenotype and the curations. */
  datatype HpoAnnotation = HpoAnnotation(
    diseaseId: TermId,
    diseaseName: string,
    negated: bool,
    hpoId: TermId,
    curations: seq<Biocuration>)

  /** The biocurations of the twelfth field: one per ';'-separated piece, the first that fails deciding the failure. */
  function Curations(field: string): Result<seq<Biocuration>> {
    Parsed(Pieces(field, ';'), ParseBiocuration)
  }

  /** The field is read exactly when every piece is, into one curation per piece, in order. */
  lemma CurationsMeaning(field: string)
    ensures Curations(field).Ok? <==> forall k :: 0 <= k < |Pieces(field, ';')| ==> ParseBiocuration(Pieces(field, ';')[k]).Ok?
    ensures Curations(field).Ok? ==> |Curations(field).value| == |Pieces(field, ';')|
    ensures Curations(field).Ok? ==>
      forall k :: 0 <= k < |Pieces(field, ';')| ==> Curations(field).value[k] == ParseBiocuration(Pieces(field, ';')[k]).value
  {
    ParsedMeaning(Pieces(field, ';'), ParseBiocuration);
  }

  /**
   * What the HpoAnnotation constructor makes of a line: exit(1) unless it
   * has exactly 12 fields, the exceptions of from_string for fields 1 and
   * 4, and one biocuration per ';'-separated piece of field 12.
   */
  function AnnotationOf(line: string): Result<HpoAnnotation> {
    var fields := Pieces(line, '\t');
    if |fields| != ExpectedFields then Err(Exit(1))
    else match FromString(fields[0])
      case Err(e) => Err(e)
      case Ok(disease) =>
        match FromString(fields[3])
        case Err(e) => Err(e)
        case Ok(hpo) =>
          match Curations(fields[11])
          case Err(e) => Err(e)
          case Ok(cs) => Ok(HpoAnnotation(disease, fields[1], StartsWith(fields[2], "NOT"), hpo, cs))
  }

  /** The HpoAnnotation constructor. */
  method ParseAnnotation(line: string) returns (r: Result<HpoAnnotation>)
    ensures r == AnnotationOf(line)
  {
    var fields := Split(line, '\t');
    if |fields| != ExpectedFields {
      return Err(Exit(1));
    }
    var disease := FromString(fields[0]);
    if disease.Err? {
      return Err(disease.error);
    }
    var hpo := FromString(fields[3]);
    if hpo.Err? {
      return Err(hpo.error);
    }
    var pieces := Split(fields[11], ';');
    var curations := [];
    var k := 0;
    while k < |pieces|
      invariant k <= |pieces|
      invariant Parsed(pieces[..k], ParseBiocuration) == Ok(curations)
    {
      var b := ParseBiocuration(pieces[k]);
      ParsedStep(pieces, k, ParseBiocuration);
      if b.Err? {
        return Err(b.error);
      }
      curations := curations + [b.value];
      k := k + 1;
    }
    assert pieces[..k] == pieces;
    r := Ok(HpoAnnotation(disease.value, fields[1], StartsWith(fields[2], "NOT"), hpo.value, curations));
  }

  /** A line with 12 fields is read field by field. */
  lemma AnnotationOfFields(line: string)
    requires |Pieces(line, '\t')| == ExpectedFields
    ensures var fields := Pieces(line, '\t');
      AnnotationOf(line).Ok? <==> FromString(fields[0]).Ok? && FromString(fields[3]).Ok? && Curations(fields[11]).Ok?
    ensures var fields := Pieces(line, '\t');
      AnnotationOf(line).Ok? ==> AnnotationOf(line).value == HpoAnnotation(
        FromString(fields[0]).value, fields[1], StartsWith(fields[2], "NOT"),
        FromString(fields[3]).value, Curations(fields[11]).value)
  {
  }

  /** A line with other than 12 fields ends the program with exit(1). */
  lemma AnnotationFieldCount(line: string)
    ensures |Pieces(line, '\t')| != ExpectedFields <==> AnnotationOf(line) == Err(Exit(1))
  {
    var fields := Pieces(line, '\t');
    if |fields| == ExpectedFields {
      match FromString(fields[0]) {
        case Err(e) =>
          assert e.PhenopacketException?;
        case Ok(_) =>
          match FromString(fields[3]) {
            case Err(e) =>
              assert e.PhenopacketException?;
            case Ok(_) =>
              if Curations(fields[11]).Err? {
                ParsedFailure(Pieces(fields[11], ';'), ParseBiocuration);
              }
          }
      }
    }
  }

  // ---------------------------------------------------------- the file

  /** The lines that are not comments, in file order. */
  function DataLines(lines: seq<string>): (r: seq<string>)
    ensures |r| <= |lines|
    ensures forall k :: 0 <= k < |r| ==> !StartsWith(r[k], "#")
  {
    if |lines| == 0 then []
    else DataLines(lines[..|lines| - 1]) + if StartsWith(lines[|lines| - 1], "#") then [] else [lines[|lines| - 1]]
  }

  /** The data lines of two stretches of the file follow one another. */
  lemma {:induction false} DataLinesAppend(a: seq<string>, b: seq<string>)
    ensures DataLines(a + b) == DataLines(a) + DataLines(b)
    decreases |b|
  {
    if |b| > 0 {
      var n := |b| - 1;
      assert (a + b)[..|a + b| - 1] == a + b[..n];
      DataLinesAppend(a, b[..n]);
    } else {
      assert a + b == a;
    }
  }

  /** The data lines of a file are those before position i, then those from i on. */
  lemma {:induction false} DataLinesSplit(lines: seq<string>, i: nat)
    requires i <= |lines|
    ensures DataLines(lines) == DataLines(lines[..i]) + DataLines(lines[i..])
    decreases |lines|
  {
    if i < |lines| {
      var n := |lines| - 1;
      var init := lines[..n];
      DataLinesSplit(init, i);
      assert init[..i] == lines[..i];
      var back := lines[i..];
      assert back[..|back| - 1] == init[i..] && back[|back| - 1] == lines[n];
    } else {
      assert lines[..i] == lines;
      assert lines[i..] == [];
    }
  }

  /** A line is a data line exactly when it is a line of the file that does not start with '#'. */
  lemma {:induction false} DataLinesMembers(lines: seq<string>)
    ensures forall x :: x in DataLines(lines) <==> x in lines && !StartsWith(x, "#")
  {
    if |lines| > 0 {
      var n := |lines| - 1;
      DataLinesMembers(lines[..n]);
      assert lines == lines[..n] + [lines[n]];
    }
  }

  /**
   * parse_phenotype_hpoa over the contents of the file, None when it
   * cannot be opened: exit(EXIT_FAILURE), or one annotation per data line.
   */
  function HpoaOf(contents: Option<string>): Result<seq<HpoAnnotation>> {
    match contents
    case None => Err(Exit(1))
    case Some(text) => Parsed(DataLines(Pieces(text, '\n')), AnnotationOf)
  }

  /** HpoAnnotation::parse_phenotype_hpoa: the loop over the lines of the file. */
  method ParsePhenotypeHpoa(contents: Option<string>) returns (r: Result<seq<HpoAnnotation>>)
    ensures r == HpoaOf(contents)
  {
    if contents.None? {
      return Err(Exit(1));
    }
    var lines := Split(contents.value, '\n');
    var annotations := [];
    var k := 0;
    while k < |lines|
      invariant k <= |lines|
      invariant Parsed(DataLines(lines[..k]), AnnotationOf) == Ok(annotations)
    {
      var line := lines[k];
      if StartsWith(line, "#") {
        ParsedDataLinesSkip(lines, k, AnnotationOf);
        k := k + 1;
        continue;
      }
      var a := ParseAnnotation(line);
      if a.Err? {
        ParsedDataLinesFail(lines, k, AnnotationOf);
        return Err(a.error);
      }
      ParsedDataLinesNext(lines, k, AnnotationOf);
      annotations := annotations + [a.value];
      k := k + 1;
    }
    assert lines[..k] == lines;
    r := Ok(annotations);
  }

  /** The data lines up to line k + 1 are those up to line k, and line k unless it is a comment. */
  lemma DataLinesStep(lines: seq<string>, k: nat)
    requires k < |lines|
    ensures StartsWith(lines[k], "#") ==> DataLines(lines[..k + 1]) == DataLines(lines[..k])
    ensures !StartsWith(lines[k], "#") ==> DataLines(lines[..k + 1]) == DataLines(lines[..k]) + [lines[k]]
  {
    assert lines[..k + 1][..k] == lines[..k];
  }

  /** A comment line leaves the parse of the data lines as it is. */
  lemma ParsedDataLinesSkip<U>(lines: seq<string>, k: nat, parse: string -> Result<U>)
    requires k < |lines| && StartsWith(lines[k], "#")
    ensures Parsed(DataLines(lines[..k + 1]), parse) == Parsed(DataLines(lines[..k]), parse)
  {
    DataLinesStep(lines, k);
  }

  /** A data line that parses adds its value to the parse of the data lines before it. */
  lemma ParsedDataLinesNext<U>(lines: seq<string>, k: nat, parse: string -> Result<U>)
    requires k < |lines| && !StartsWith(lines[k], "#")
    requires Parsed(DataLines(lines[..k]), parse).Ok? && parse(lines[k]).Ok?
    ensures Parsed(DataLines(lines[..k + 1]), parse) == Ok(Parsed(DataLines(lines[..k]), parse).value + [parse(lines[k]).value])
  {
    DataLinesStep(lines, k);
    var done := DataLines(lines[..k + 1]);
    assert done[..|done| - 1] == DataLines(lines[..k]);
  }

  /** A data line that does not parse, after data lines that do, decides the parse of the whole file. */
  lemma ParsedDataLinesFail<U>(lines: seq<string>, k: nat, parse: string -> Result<U>)
    requires k < |lines| && !StartsWith(lines[k], "#")
    requires Parsed(DataLines(lines[..k]), parse).Ok? && parse(lines[k]).Err?
    ensures Parsed(DataLines(lines), parse) == Err(parse(lines[k]).error)
  {
    var pre, post := lines[..k + 1], lines[k + 1..];
    assert Parsed(DataLines(pre), parse) == Err(parse(lines[k]).error) by {
      DataLinesStep(lines, k);
      ParsedSnocFailure(DataLines(lines[..k]), lines[k], parse);
    }
    DataLinesSplit(lines, k + 1);
    ParsedAppendFailure(DataLines(pre), DataLines(post), parse);
  }

  // -------------------------------------------------------------- queries

  /** is_omim: the disease id has the prefix "OMIM". */
  predicate IsOmim(a: HpoAnnotation) {
    GetPrefix(a.diseaseId) == "OMIM"
  }

  /** A disease id "P:local" without '/' is read with prefix P, so it is an OMIM id exactly when P is "OMIM". */
  lemma OmimPrefix(a: HpoAnnotation, prefix: string, local: string)
    requires ':' !in prefix && '/' !in prefix && '/' !in local
    requires FromString(prefix + ":" + local) == Ok(a.diseaseId)
    ensures IsOmim(a) <==> prefix == "OMIM"
  {
    var s := prefix + ":" + local;
    assert s[|prefix|] == ':' && s[..|prefix|] == prefix;
    FindCharAt(s, ':', |prefix|);
    FromStringOfCurie(s, |prefix|);
  }

  /** get_negated */
  function GetNegated(a: HpoAnnotation): string {
    if a.negated then "NOT" else ""
  }

  /** Writing the flag with get_negated and reading it with the constructor's test gives it back. */
  lemma NegatedRoundTrip(a: HpoAnnotation)
    ensures StartsWith(GetNegated(a), "NOT") <==> a.negated
  {
  }

  /** The test newer_than applies to one curation: no field of the threshold is greater. */
  predicate NoFieldEarlier(c: Tm, threshold: Tm) {
    threshold.year <= c.year && threshold.mon <= c.mon && threshold.mday <= c.mday
  }

  /** Every curation passes the field-by-field test of newer_than. */
  predicate AsWrittenNewer(a: HpoAnnotation, threshold: Tm) {
    forall k :: 0 <= k < |a.curations| ==> NoFieldEarlier(a.curations[k].date, threshold)
  }

  /** newer_than as written: every curation passes the field-by-field test. */
  method AsWrittenNewerThan(a: HpoAnnotation, threshold: Tm) returns (r: bool)
    ensures r <==> forall k :: 0 <= k < |a.curations| ==> NoFieldEarlier(a.curations[k].date, threshold)
    ensures r == AsWrittenNewer(a, threshold)
  {
    for k := 0 to |a.curations|
      invariant forall j :: 0 <= j < k ==> NoFieldEarlier(a.curations[j].date, threshold)
    {
      var c := a.curations[k].date;
      if threshold.year > c.year {
        return false;
      } else if threshold.mon > c.mon {
        return false;
      } else if threshold.mday > c.mday {
        return false;
      }
    }
    return true;
  }

  /** Every curation is on or after the threshold date. */
  predicate Newer(a: HpoAnnotation, threshold: Tm) {
    forall k :: 0 <= k < |a.curations| ==> DateLeq(threshold, a.curations[k].date)
  }

  /** newer_than as evidently intended: the dates compare as dates. */
  method NewerThan(a: HpoAnnotation, threshold: Tm) returns (r: bool)
    ensures r == Newer(a, threshold)
  {
    for k := 0 to |a.curations|
      invariant forall j :: 0 <= j < k ==> DateLeq(threshold, a.curations[j].date)
    {
      if !DateLeq(threshold, a.curations[k].date) {
        return false;
      }
    }
    return true;
  }

  /** Dates are totally ordered and the order is transitive. */
  lemma DateLeqOrder(a: Tm, b: Tm, c: Tm)
    ensures DateLeq(a, b) || DateLeq(b, a)
    ensures DateLeq(a, b) && DateLeq(b, c) ==> DateLeq(a, c)
    ensures DateLeq(a, b) && DateLeq(b, a) ==> a == b
  {
  }

  /** An annotation newer than a threshold is newer than any earlier one, and every one without curations is newer. */
  lemma NewerMonotone(a: HpoAnnotation, earlier: Tm, threshold: Tm)
    requires DateLeq(earlier, threshold)
    ensures Newer(a, threshold) ==> Newer(a, earlier)
    ensures |a.curations| == 0 ==> Newer(a, threshold)
  {
    forall k | 0 <= k < |a.curations| && DateLeq(threshold, a.curations[k].date)
      ensures DateLeq(earlier, a.curations[k].date)
    {
      DateLeqOrder(earlier, threshold, a.curations[k].date);
    }
  }

  /**
   * The field-by-field test passes only dates the date order passes, but
   * it fails a curation of 2020-01-01 against the threshold 2019-06-15.
   */
  lemma AsWrittenNewerThanIsStricter(c: Tm, threshold: Tm)
    ensures NoFieldEarlier(c, threshold) ==> DateLeq(threshold, c)
    ensures DateLeq(Tm(119, 5, 15), Tm(120, 0, 1)) && !NoFieldEarlier(Tm(120, 0, 1), Tm(119, 5, 15))
  {
  }

  // ---------------------------------------------------- biocuration string

  /** The texts of the curations, in order. */
  function Texts(cs: seq<Biocuration>): seq<string> {
    Mapped(cs, Text)
  }

  /** Joining one more piece puts a delimiter between it and what is joined so far. */
  lemma {:induction false} JoinSnoc(pieces: seq<string>, p: string, d: char)
    requires |pieces| > 0
    ensures Join(pieces + [p], d) == Join(pieces, d) + [d] + p
    decreases |pieces|
  {
    if |pieces| > 1 {
      assert (pieces + [p])[1..] == pieces[1..] + [p];
      JoinSnoc(pieces[1..], p, d);
    }
  }

  /** The texts to_string as written gives the curations, in order. */
  function AsWrittenTexts(cs: seq<Biocuration>): seq<string> {
    Mapped(cs, AsWrittenText)
  }

  /** get_biocuration_string as written: the overwritten texts, a ';' after each but the last. */
  method AsWrittenBiocurationString(a: HpoAnnotation) returns (r: string)
    ensures r == Join(AsWrittenTexts(a.curations), ';')
  {
    r := JoinedTexts(a.curations, AsWrittenText, ';');
  }

  /** get_biocuration_string with to_string as intended: the curations' texts, a ';' after each but the last. */
  method BiocurationString(a: HpoAnnotation) returns (r: string)
    ensures r == Join(Texts(a.curations), ';')
  {
    r := JoinedTexts(a.curations, Text, ';');
  }

  /** The loop of get_biocuration_string: each element's text, then d unless it is the last. */
  method JoinedTexts<T>(xs: seq<T>, text: T -> string, d: char) returns (r: string)
    ensures r == Join(Mapped(xs, text), d)
  {
    ghost var ts := Mapped(xs, text);
    r := "";
    for k := 0 to |xs|
      invariant r == Join(ts[..k], d) + if 0 < k < |xs| then [d] else ""
    {
      var t := text(xs[k]);
      assert t == ts[k] by {
        MappedMeaning(xs, text);
      }
      JoinPrefixStep(ts, k, d);
      r := r + t;
      if k != |xs| - 1 {
        r := r + [d];
      }
    }
    assert ts[..|xs|] == ts;
  }

  /** Joining one more piece of a sequence: the first alone, then a delimiter before each further piece. */
  lemma JoinPrefixStep(ts: seq<string>, k: nat, d: char)
    requires k < |ts|
    ensures Join(ts[..k + 1], d) == if k == 0 then ts[0] else Join(ts[..k], d) + [d] + ts[k]
  {
    assert ts[..k + 1] == ts[..k] + [ts[k]];
    if k > 0 {
      JoinSnoc(ts[..k], ts[k], d);
    }
  }

  /** The text of a curation whose curator holds neither c nor '[' does not hold c. */
  lemma TextAvoids(b: Biocuration, c: char)
    requires c != '-' && !IsDigit(c) && c != '[' && c != ']' && c !in b.curator
    ensures c !in Text(b)
  {
    PlainDateAvoids(b.date, c);
  }

  /**
   * The constructor reads back the curations get_biocuration_string
   * writes, when no curator holds '[' or ';'.
   */
  lemma CurationsRoundTrip(cs: seq<Biocuration>)
    requires forall k :: 0 <= k < |cs| ==> '[' !in cs[k].curator && ';' !in cs[k].curator
    ensures Curations(Join(Texts(cs), ';')) == Ok(cs)
  {
    forall k | 0 <= k < |cs|
      ensures Text(cs[k]) != [] && ';' !in Text(cs[k]) && ParseBiocuration(Text(cs[k])) == Ok(cs[k])
    {
      TextAvoids(cs[k], ';');
      BiocurationRoundTrip(cs[k]);
    }
    ParsedPiecesJoin(cs, Text, ParseBiocuration, ';');
  }

  /**
   * A line whose twelfth field is the biocuration string of some
   * curations reads those curations back.
   */
  lemma AnnotationCurationsRoundTrip(fields: seq<string>, cs: seq<Biocuration>)
    requires |fields| == ExpectedFields && |cs| > 0 && fields[11] == Join(Texts(cs), ';')
    requires forall k :: 0 <= k < 11 ==> '\t' !in fields[k]
    requires forall k :: 0 <= k < |cs| ==> '[' !in cs[k].curator && ';' !in cs[k].curator && '\t' !in cs[k].curator
    requires FromString(fields[0]).Ok? && FromString(fields[3]).Ok?
    ensures AnnotationOf(Join(fields, '\t')) == Ok(HpoAnnotation(
      FromString(fields[0]).value, fields[1], StartsWith(fields[2], "NOT"), FromString(fields[3]).value, cs))
  {
    assert '\t' !in fields[11] && fields[11] != [] by {
      BiocurationStringAvoids(cs, '\t');
    }
    assert Pieces(Join(fields, '\t'), '\t') == fields by {
      PiecesJoinLast(fields, '\t');
    }
    assert Curations(fields[11]) == Ok(cs) by {
      CurationsRoundTrip(cs);
    }
    AnnotationOfFields(Join(fields, '\t'));
  }

  /** The biocuration string is not empty, and holds no c that no curator holds, when c cannot occur in a date tag or as the delimiter. */
  lemma BiocurationStringAvoids(cs: seq<Biocuration>, c: char)
    requires |cs| > 0 && c != '-' && !IsDigit(c) && c != '[' && c != ']' && c != ';'
    requires forall k :: 0 <= k < |cs| ==> c !in cs[k].curator
    ensures c !in Join(Texts(cs), ';') && Join(Texts(cs), ';') != []
  {
    var texts := Texts(cs);
    MappedMeaning(cs, Text);
    forall k | 0 <= k < |texts| ensures c !in texts[k] {
      TextAvoids(cs[k], c);
    }
    JoinAvoids(texts, ';', c);
    JoinNonEmpty(texts, ';');
  }

  /** Splitting a join gives back the pieces when only the last needs its own argument. */
  lemma PiecesJoinLast(pieces: seq<string>, d: char)
    requires |pieces| > 0 && d !in pieces[|pieces| - 1] && pieces[|pieces| - 1] != []
    requires forall k :: 0 <= k < |pieces| - 1 ==> d !in pieces[k]
    ensures Pieces(Join(pieces, d), d) == pieces
  {
    PiecesJoin(pieces, d);
  }

  /** A join of pieces without c, with a delimiter other than c, does not hold c. */
  lemma {:induction false} JoinAvoids(pieces: seq<string>, d: char, c: char)
    requires c != d && forall k :: 0 <= k < |pieces| ==> c !in pieces[k]
    ensures c !in Join(pieces, d)
  {
    if |pieces| > 1 {
      JoinAvoids(pieces[1..], d, c);
    }
  }

  /** The join of texts is not empty when there is a text. */
  lemma JoinNonEmpty(texts: seq<string>, d: char)
    requires |texts| > 0 && texts[0] != []
    ensures Join(texts, d) != []
  {
  }
}
