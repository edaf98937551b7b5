/**
 * createGGplotFile.py: count the category of every line of two term files
 * written by the "hpo" command's category output, and write the data
 * vectors of an R script that plots, per category, the count of the first
 * file and what the second file adds to it.
 */
module GgPlot {
  import opened Wrappers
  import opened Strings
  import Categories
  import CountScript

  /** The keys of the script's `categories` dict: the names shown on the plot, in insertion order. */
  const PlotNames: seq<string> := [
    "Abnormal cellular", "Blood", "Connective tissue", "Head and neck", "Limbs",
    "Metabolism/Lab", "Prenatal", "Breast", "Cardiovascular", "Digestive",
    "Ear", "Endocrine", "Eye", "Genitourinary", "Immunology",
    "Integument", "Muscle", "Nervous system", "Respiratory", "Skeletal",
    "Thoracic cavity", "Voice", "Constitutional", "Growth", "Neoplasm"]

  /** The values of that dict are the 25 ids of the counting script's registry, in the same order. */
  lemma PlotRegistryShape()
    ensures |PlotNames| == |Categories.CategoryIds| == 25
    ensures Categories.Distinct(Categories.CategoryIds)
  {
    Categories.RegistryShape();
  }

  // ----------------------------------------------------------- id2cat

  /** Entry i of the registry is the last one with its id: no later entry overwrites it in id2cat. */
  predicate LastWithId(ids: seq<string>, i: int, n: int)
    requires 0 <= i < n <= |ids|
  {
    forall j :: i < j < n ==> ids[j] != ids[i]
  }

  /** The loop that fills id2cat: every id maps to the name of the last entry with that id. */
  method Id2Cat(names: seq<string>, ids: seq<string>) returns (id2cat: map<string, string>)
    requires |names| == |ids|
    ensures forall x :: x in id2cat <==> x in ids
    ensures forall i :: 0 <= i < |ids| && LastWithId(ids, i, |ids|) ==> id2cat[ids[i]] == names[i]
    ensures Categories.Distinct(ids) ==> |id2cat| == |ids|
  {
    id2cat := map[];
    for k := 0 to |ids|
      invariant forall x :: x in id2cat <==> x in ids[..k]
      invariant forall i :: 0 <= i < k && LastWithId(ids, i, k) ==> id2cat[ids[i]] == names[i]
      invariant Categories.Distinct(ids) ==> |id2cat| == k
    {
      if Categories.Distinct(ids) {
        assert ids[k] !in ids[..k];
      }
      id2cat := id2cat[ids[k] := names[k]];
      assert ids[..k + 1] == ids[..k] + [ids[k]];
    }
    assert ids[..|ids|] == ids;
  }

  /** With distinct ids, id2cat is the inverse of the registry: each id gives back its own name. */
  lemma {:induction false} Id2CatInverse(names: seq<string>, ids: seq<string>, id2cat: map<string, string>)
    requires |names| == |ids| && Categories.Distinct(ids)
    requires forall x :: x in id2cat <==> x in ids
    requires forall i :: 0 <= i < |ids| && LastWithId(ids, i, |ids|) ==> id2cat[ids[i]] == names[i]
    ensures forall i :: 0 <= i < |ids| ==> ids[i] in id2cat && id2cat[ids[i]] == names[i]
  {
    forall i | 0 <= i < |ids| ensures ids[i] in id2cat && id2cat[ids[i]] == names[i] {
      assert LastWithId(ids, i, |ids|);
    }
  }

  // ------------------------------------------------ input_category_counts

  /** line.rstrip().split('\t')[1], or the IndexError of a line with no tab. */
  function Field(line: string): (r: Result<string>)
    ensures r.Err? <==> '\t' !in RStrip(line)
  {
    var parts := PySplit(RStrip(line), '\t');
    if |parts| < 2 then Err(IndexError("list index out of range")) else Ok(parts[1])
  }

  /** How many times c occurs. */
  function Occurrences(cats: seq<string>, c: string): nat {
    if |cats| == 0 then 0
    else Occurrences(cats[..|cats| - 1], c) + if cats[|cats| - 1] == c then 1 else 0
  }

  /** A defaultdict(int) read: a missing key reads as 0. */
  function Get(m: map<string, int>, c: string): int {
    if c in m then m[c] else 0
  }

  lemma OccurrencesSnoc(cats: seq<string>, x: string, c: string)
    ensures Occurrences(cats + [x], c) == Occurrences(cats, c) + if x == c then 1 else 0
  {
    assert (cats + [x])[..|cats|] == cats;
  }

  /** A category that never occurs is counted zero times. */
  lemma {:induction false} OccurrencesAbsent(cats: seq<string>, c: string)
    requires c !in cats
    ensures Occurrences(cats, c) == 0
  {
    if |cats| > 0 {
      OccurrencesAbsent(cats[..|cats| - 1], c);
    }
  }

  /**
   * input_category_counts over the lines of a file: the number of lines
   * whose second field is c, for every c that occurs, or the IndexError of
   * the first line without a tab.
   */
  method InputCategoryCounts(lines: seq<string>) returns (r: Result<map<string, int>>)
    ensures r.Err? <==> Parsed(lines, Field).Err?
    ensures r.Err? ==> r.error == Parsed(lines, Field).error
    ensures r.Ok? ==> forall c :: (c in r.value <==> c in Parsed(lines, Field).value)
    ensures r.Ok? ==> forall c :: Get(r.value, c) == Occurrences(Parsed(lines, Field).value, c)
  {
    var ctdict: map<string, int> := map[];
    for k := 0 to |lines|
      invariant Parsed(lines[..k], Field).Ok?
      invariant forall c :: c in ctdict <==> c in Parsed(lines[..k], Field).value
      invariant forall c :: Get(ctdict, c) == Occurrences(Parsed(lines[..k], Field).value, c)
    {
      ParsedStep(lines, k, Field);
      match Field(lines[k])
      case Err(e) =>
        return Err(e);
      case Ok(category) =>
        ghost var done := Parsed(lines[..k], Field).value;
        forall c ensures Occurrences(done + [category], c) == Occurrences(done, c) + if category == c then 1 else 0 {
          OccurrencesSnoc(done, category, c);
        }
        ctdict := ctdict[category := Get(ctdict, category) + 1];
    }
    assert lines[..|lines|] == lines;
    return Ok(ctdict);
  }

  /**
   * A line the category output writes, "<term id>\t<category id>" with its
   * line end, has the category as its second field.
   */
  lemma CategoryLineField(tid: string, category: string)
    requires '\t' !in tid && '\t' !in category
    requires |category| > 0 && !IsPySpace(category[|category| - 1])
    ensures Field(Terminated(tid + "\t" + category)) == Ok(category)
  {
    var u := tid + "\t" + category;
    assert u[|u| - 1] == category[|category| - 1];
    RStripAround(u, "\n");
    assert Terminated(u) == u + "\n";
    PySplitTwo(tid, category, '\t');
    assert tid + ['\t'] + category == u;
  }

  // ------------------------------------------------------- the R vectors

  /** The number of year phases each category is repeated for. */
  const N := 2

  /** One entry of the categories vector: rep("<name>", n). */
  function Rep(name: string, n: int): string {
    "rep(\"" + name + "\", " + IntToString(n) + ")"
  }

  /** The loop that fills rep_list: one rep(...) per category, in registry order. */
  method RepList(names: seq<string>) returns (repList: seq<string>)
    ensures |repList| == |names|
    ensures forall i :: 0 <= i < |names| ==> repList[i] == Rep(names[i], N)
  {
    repList := [];
    for k := 0 to |names|
      invariant |repList| == k
      invariant forall i :: 0 <= i < k ==> repList[i] == Rep(names[i], N)
    {
      repList := repList + [Rep(names[k], N)];
    }
  }

  /**
   * The loop that fills value_list: for each category, its count in the
   * first file, then what the second file adds, so that the two stacked
   * values sum to the count in the second file.
   */
  method ValueList(ids: seq<string>, ct1: map<string, int>, ct2: map<string, int>) returns (values: seq<int>)
    ensures |values| == 2 * |ids|
    ensures forall i :: 0 <= i < |ids| ==> values[2 * i] == Get(ct1, ids[i])
    ensures forall i :: 0 <= i < |ids| ==> values[2 * i] + values[2 * i + 1] == Get(ct2, ids[i])
  {
    values := [];
    for k := 0 to |ids|
      invariant |values| == 2 * k
      invariant forall i :: 0 <= i < k ==> values[2 * i] == Get(ct1, ids[i])
      invariant forall i :: 0 <= i < k ==> values[2 * i] + values[2 * i + 1] == Get(ct2, ids[i])
    {
      var hpo1 := Get(ct1, ids[k]);
      var hpo2 := Get(ct2, ids[k]) - hpo1;
      values := values + [hpo1, hpo2];
    }
  }

  /** The data vectors the script writes: rep entries, the repeat count of the years factor, and the values. */
  datatype PlotData = PlotData(repList: seq<string>, years: int, values: seq<int>)

  /** The lines of count_barplot.R that carry data. */
  function DataLines(d: PlotData): (r: seq<string>)
    ensures |r| == 7
  {
    ["library(ggplot2)",
     "theme_set(theme_bw())",
     "categories <-c(" + Join(d.repList, ',') + ")",
     "years <- factor(rep(c(\"2008-2018\", \"2018-2020\")," + IntToString(d.years) + "))",
     "years <- relevel(years, \"2018-2020\")",
     "value <- c(" + Join(Mapped(d.values, IntToString), ',') + ")",
     "data <- data.frame(categories, years, value)"]
  }

  /** The values written into the value vector, split at ',', read back with int() as the values. */
  lemma ValueTextReadBack(values: seq<int>)
    requires |values| > 0
    ensures Parsed(PySplit(Join(Mapped(values, IntToString), ','), ','), CountScript.Int) == Ok(values)
  {
    var texts := Mapped(values, IntToString);
    forall k | 0 <= k < |texts| ensures ',' !in texts[k] {
      MappedMeaning(values, IntToString);
      IntToStringChars(values[k], ',');
    }
    PySplitJoin(texts, ',');
    forall x | x in values ensures CountScript.Int(IntToString(x)) == Ok(x) {
      CountScript.IntOfIntToString(x);
    }
    ParsedMappedInverse(values, IntToString, CountScript.Int);
  }

  /**
   * The script from the two term files: both are counted first, so a line
   * without a tab in either stops it before anything is written; then the
   * three vectors of the data frame, of equal length when the ids are
   * distinct.
   */
  method PlotScript(names: seq<string>, ids: seq<string>, lines1: seq<string>, lines2: seq<string>)
    returns (r: Result<PlotData>)
    requires |names| == |ids|
    ensures r.Err? <==> Parsed(lines1, Field).Err? || Parsed(lines2, Field).Err?
    ensures r.Err? && Parsed(lines1, Field).Err? ==> r.error == Parsed(lines1, Field).error
    ensures r.Ok? ==> |r.value.repList| == |names| && |r.value.values| == 2 * |ids|
    ensures r.Ok? ==> forall i :: 0 <= i < |names| ==> r.value.repList[i] == Rep(names[i], N)
    ensures r.Ok? ==> forall i :: 0 <= i < |ids| ==>
      (r.value.values[2 * i] == Occurrences(Parsed(lines1, Field).value, ids[i])
       && r.value.values[2 * i] + r.value.values[2 * i + 1] == Occurrences(Parsed(lines2, Field).value, ids[i]))
    ensures r.Ok? && Categories.Distinct(ids) ==> N * |r.value.repList| == N * r.value.years == |r.value.values|
  {
    var id2cat := Id2Cat(names, ids);
    var c1 := InputCategoryCounts(lines1);
    if c1.Err? {
      return Err(c1.error);
    }
    var c2 := InputCategoryCounts(lines2);
    if c2.Err? {
      return Err(c2.error);
    }
    var repList := RepList(names);
    var values := ValueList(ids, c1.value, c2.value);
    r := Ok(PlotData(repList, |id2cat|, values));
  }
}
