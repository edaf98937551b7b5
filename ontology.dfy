/**
 * Ontology terms and the ontology graph. The graph is kept in compressed
 * sparse row (CSR) form: term ids are sorted and numbered, the edges
 * leaving vertex v occupy the slots offsetToEdge[v] .. offsetToEdge[v+1]-1
 * of edgeTo (destination vertex) and edgeTypeList (relation).
 */
module Ontology {
  import opened Wrappers
  import opened Strings
  import opened TermIds
  import opened Edges
  import opened Properties
  import opened Csr
  import opened Graph

  // --------------------------------------------------------------- terms

  /** A cross reference names one term. */
  datatype Xref = Xref(termId: TermId)

  datatype SynonymType = EXACT | BROAD | NARROW | RELATED

  /**
   * A synonym with its type. The constructor leaves the type member
   * uninitialised for an unknown predicate; None stands for that
   * indeterminate value.
   */
  datatype Synonym = Synonym(stype: Option<SynonymType>, name: string)

  /** The predicate names a synonym type is read from. */
  const SynonymTypes: map<string, SynonymType> := map[
    "hasExactSynonym" := EXACT,
    "hasBroadSynonym" := BROAD,
    "hasNarrowSynonym" := NARROW,
    "hasRelatedSynonym" := SynonymType.RELATED
  ]

  /** Synonym(typ, lbl): the label is kept and the type is the registered one for typ. */
  function SynonymOf(typ: string, lbl: string): (s: Synonym)
    ensures s.name == lbl
    ensures typ in SynonymTypes ==> s.stype == Some(SynonymTypes[typ])
    ensures typ !in SynonymTypes ==> s.stype == None
  {
    if typ == "hasExactSynonym" then Synonym(Some(EXACT), lbl)
    else if typ == "hasBroadSynonym" then Synonym(Some(BROAD), lbl)
    else if typ == "hasNarrowSynonym" then Synonym(Some(NARROW), lbl)
    else if typ == "hasRelatedSynonym" then Synonym(Some(SynonymType.RELATED), lbl)
    else Synonym(None, lbl)
  }

  /** Different synonym predicates give different types: the four names are told apart. */
  lemma SynonymTypesDistinct(a: string, b: string)
    requires a in SynonymTypes && b in SynonymTypes && a != b
    ensures SynonymOf(a, "").stype != SynonymOf(b, "").stype
  {
  }

  /** The value of a term, as the ontology stores a copy of it. */
  datatype TermData = TermData(
    id: TermId,
    name: string,
    definition: string,
    definitionXrefs: seq<Xref>,
    termXrefs: seq<Xref>,
    altIds: seq<TermId>,
    propertyValues: seq<PredicateValue>,
    synonyms: seq<Synonym>,
    obsolete: bool)

  /** A term as it is filled in while a file is read. */
  class Term {
    var id: TermId
    var name: string
    var definition: string
    var definitionXrefs: seq<Xref>
    var termXrefs: seq<Xref>
    var altIds: seq<TermId>
    var propertyValues: seq<PredicateValue>
    var synonyms: seq<Synonym>
    var isObsolete: bool

    function Value(): TermData
      reads this
    {
      TermData(id, name, definition, definitionXrefs, termXrefs, altIds, propertyValues, synonyms, isObsolete)
    }

    /** A new term has its id and label and nothing else; it is not obsolete. */
    constructor (id: TermId, name: string)
      ensures Value() == TermData(id, name, "", [], [], [], [], [], false)
    {
      this.id := id;
      this.name := name;
      definition := "";
      definitionXrefs := [];
      termXrefs := [];
      altIds := [];
      propertyValues := [];
      synonyms := [];
      isObsolete := false;
    }

    method AddDefinition(def: string)
      modifies this
      ensures Value() == old(Value()).(definition := def)
    {
      definition := def;
    }

    method AddDefinitionXref(x: Xref)
      modifies this
      ensures Value() == old(Value()).(definitionXrefs := old(definitionXrefs) + [x])
    {
      definitionXrefs := definitionXrefs + [x];
    }

    method AddTermXref(x: Xref)
      modifies this
      ensures Value() == old(Value()).(termXrefs := old(termXrefs) + [x])
    {
      termXrefs := termXrefs + [x];
    }

    /**
     * An alternative-id value is parsed as a term id and goes to the
     * alternative ids; any other value goes to the property values; never
     * both. A value that does not parse leaves the term as it was and
     * reports the parse failure.
     */
    method AddPredicateValue(pv: PredicateValue) returns (err: Option<Failure>)
      modifies this
      ensures IsAlternateId(pv) && FromString(pv.value).Ok? ==>
        err == None && Value() == old(Value()).(altIds := old(altIds) + [FromString(pv.value).value])
      ensures IsAlternateId(pv) && FromString(pv.value).Err? ==>
        err == Some(FromString(pv.value).error) && Value() == old(Value())
      ensures !IsAlternateId(pv) ==>
        err == None && Value() == old(Value()).(propertyValues := old(propertyValues) + [pv])
    {
      if IsAlternateId(pv) {
        var alt := FromString(pv.value);
        if alt.Err? {
          return Some(alt.error);
        }
        altIds := altIds + [alt.value];
      } else {
        propertyValues := propertyValues + [pv];
      }
      err := None;
    }

    method AddSynonym(pred: string, lbl: string)
      modifies this
      ensures Value() == old(Value()).(synonyms := old(synonyms) + [SynonymOf(pred, lbl)])
    {
      synonyms := synonyms + [SynonymOf(pred, lbl)];
    }

    function HasAlternativeIds(): (r: bool)
      reads this
      ensures r <==> Value().altIds != []
    {
      |altIds| != 0
    }

    /** Nothing in the library sets the flag, so a term built here is never obsolete. */
    function Obsolete(): (r: bool)
      reads this
      ensures r == Value().obsolete
    {
      isObsolete
    }
  }

  // ----------------------------------------------------- term bookkeeping

  /** The keys a term is filed under: its primary id and each alternative id. */
  function KeySet(t: TermData): set<string> {
    {t.id.value} + set a | a in t.altIds :: a.value
  }

  /** std::map::insert: an existing entry is kept. */
  function InsertKey(m: map<string, TermData>, k: string, t: TermData): map<string, TermData> {
    if k in m then m else m[k := t]
  }

  function InsertAlts(m: map<string, TermData>, alts: seq<TermId>, t: TermData): map<string, TermData> {
    if |alts| == 0 then m else InsertKey(InsertAlts(m, alts[..|alts| - 1], t), alts[|alts| - 1].value, t)
  }

  /** One term filed under its primary id, then under each alternative id. */
  function InsertTerm(m: map<string, TermData>, t: TermData): map<string, TermData> {
    InsertAlts(InsertKey(m, t.id.value, t), t.altIds, t)
  }

  /** add_all_terms' filing of every term in turn. */
  function InsertAll(m: map<string, TermData>, terms: seq<TermData>): map<string, TermData> {
    if |terms| == 0 then m else InsertTerm(InsertAll(m, terms[..|terms| - 1]), terms[|terms| - 1])
  }

  lemma {:induction false} InsertAltsFiles(m: map<string, TermData>, alts: seq<TermId>, t: TermData)
    ensures InsertAlts(m, alts, t).Keys == m.Keys + set a | a in alts :: a.value
    ensures forall j :: j in m ==> InsertAlts(m, alts, t)[j] == m[j]
    ensures forall j :: j in InsertAlts(m, alts, t) && j !in m ==> InsertAlts(m, alts, t)[j] == t
  {
    if |alts| > 0 {
      var p := alts[..|alts| - 1];
      assert alts == p + [alts[|alts| - 1]];
      InsertAltsFiles(m, p, t);
    }
  }

  /** A term is filed under exactly its keys; keys already present keep their term. */
  lemma InsertTermFiles(m: map<string, TermData>, t: TermData)
    ensures InsertTerm(m, t).Keys == m.Keys + KeySet(t)
    ensures forall j :: j in m ==> InsertTerm(m, t)[j] == m[j]
    ensures forall j :: j in InsertTerm(m, t) && j !in m ==> InsertTerm(m, t)[j] == t
  {
    InsertAltsFiles(InsertKey(m, t.id.value, t), t.altIds, t);
  }

  /** All keys of a list of terms. */
  function KeysOf(terms: seq<TermData>): (ks: set<string>)
    ensures forall i :: 0 <= i < |terms| ==> KeySet(terms[i]) <= ks
  {
    if |terms| == 0 then {} else KeysOf(terms[..|terms| - 1]) + KeySet(terms[|terms| - 1])
  }

  lemma {:induction false} KeysOfWitness(terms: seq<TermData>, k: string) returns (i: nat)
    requires k in KeysOf(terms)
    ensures i < |terms| && k in KeySet(terms[i])
  {
    var p := terms[..|terms| - 1];
    if k in KeySet(terms[|terms| - 1]) {
      i := |terms| - 1;
    } else {
      i := KeysOfWitness(p, k);
      assert p[i] == terms[i];
    }
  }

  /** After filing a list of terms the map holds the old keys, unchanged, and every key of every term. */
  lemma {:induction false} InsertAllFiles(m: map<string, TermData>, terms: seq<TermData>)
    ensures InsertAll(m, terms).Keys == m.Keys + KeysOf(terms)
    ensures forall j :: j in m ==> InsertAll(m, terms)[j] == m[j]
  {
    if |terms| > 0 {
      InsertAllFiles(m, terms[..|terms| - 1]);
      InsertTermFiles(InsertAll(m, terms[..|terms| - 1]), terms[|terms| - 1]);
    }
  }

  /**
   * Every key ends up with the first term, in input order, filed under it:
   * so a term's primary id and its alternative ids all lead to that term
   * unless an earlier term already claimed the key.
   */
  lemma {:induction false} InsertAllFirstWins(m: map<string, TermData>, terms: seq<TermData>, i: nat, k: string)
    requires i < |terms| && k in KeySet(terms[i]) && k !in m
    requires forall j :: 0 <= j < i ==> k !in KeySet(terms[j])
    ensures k in InsertAll(m, terms) && InsertAll(m, terms)[k] == terms[i]
  {
    var p := terms[..|terms| - 1];
    InsertAllFiles(m, terms);
    InsertAllFiles(m, p);
    InsertTermFiles(InsertAll(m, p), terms[|terms| - 1]);
    if i < |terms| - 1 {
      assert p[i] == terms[i];
      InsertAllFirstWins(m, p, i, k);
    } else if k in KeysOf(p) {
      var j := KeysOfWitness(p, k);
      assert false;
    }
  }

  /** The primary ids of the terms that are not obsolete, in input order. */
  function CurrentIds(terms: seq<TermData>): seq<TermId> {
    if |terms| == 0 then []
    else CurrentIds(terms[..|terms| - 1]) + (if terms[|terms| - 1].obsolete then [] else [terms[|terms| - 1].id])
  }

  /** The primary ids of the obsolete terms, in input order. */
  function ObsoleteIds(terms: seq<TermData>): seq<TermId> {
    if |terms| == 0 then []
    else ObsoleteIds(terms[..|terms| - 1]) + (if terms[|terms| - 1].obsolete then [terms[|terms| - 1].id] else [])
  }

  /** Every term goes to exactly one of the two lists. */
  lemma {:induction false} IdsPartitionTerms(terms: seq<TermData>)
    ensures |CurrentIds(terms)| + |ObsoleteIds(terms)| == |terms|
  {
    if |terms| > 0 { IdsPartitionTerms(terms[..|terms| - 1]); }
  }

  function IdKey(t: TermId): (string, string) { (t.value, "") }

  /** Position i is recorded for the value of ids[i]; a later equal value overwrites it. */
  function IndexMap(m: map<string, nat>, ids: seq<TermId>): (r: map<string, nat>)
    ensures r.Keys == m.Keys + set x | x in ids :: x.value
  {
    if |ids| == 0 then m
    else IndexMap(m, ids[..|ids| - 1])[ids[|ids| - 1].value := |ids| - 1]
  }

  /** Each id is indexed by the last position holding its value. */
  lemma {:induction false} IndexMapLast(m: map<string, nat>, ids: seq<TermId>, i: nat)
    requires i < |ids|
    ensures i <= IndexMap(m, ids)[ids[i].value] < |ids|
    ensures ids[IndexMap(m, ids)[ids[i].value]].value == ids[i].value
  {
    var p := ids[..|ids| - 1];
    if i < |ids| - 1 && ids[i].value != ids[|ids| - 1].value {
      assert p[i] == ids[i];
      IndexMapLast(m, p, i);
      assert p[IndexMap(m, p)[p[i].value]] == ids[IndexMap(m, p)[p[i].value]];
    }
  }

  /** A key the old map did not have points at a position holding that key. */
  lemma {:induction false} IndexMapFresh(m: map<string, nat>, ids: seq<TermId>, k: string)
    requires k in IndexMap(m, ids) && k !in m
    ensures IndexMap(m, ids)[k] < |ids| && ids[IndexMap(m, ids)[k]].value == k
  {
    var p := ids[..|ids| - 1];
    if k != ids[|ids| - 1].value {
      IndexMapFresh(m, p, k);
      assert p[IndexMap(m, p)[k]] == ids[IndexMap(m, p)[k]];
    }
  }

  function EdgeKey(e: Edge): (string, string) { (e.source.value, e.dest.value) }

  /** Sorting by EdgeKey is sorting by Edge's own order: no later edge precedes an earlier one. */
  lemma EdgeKeyAgreesWithEdgeLess(a: Edge, b: Edge)
    ensures EdgeLess(a, b) <==> !PairLeq(EdgeKey(b), EdgeKey(a))
  {
    LexLessTotal(a.source.value, b.source.value);
    LexLessTotal(a.dest.value, b.dest.value);
    if LexLess(a.source.value, b.source.value) { LexLessAsymmetric(a.source.value, b.source.value); }
    if LexLess(a.dest.value, b.dest.value) { LexLessAsymmetric(a.dest.value, b.dest.value); }
    LexLessIrreflexive(a.dest.value);
  }

  /** The IS_A_INVERSE edges add_all_edges appends, one per IS_A edge, in input order. */
  function Inverses(edges: seq<Edge>): (r: seq<Edge>)
    ensures forall e :: e in r <==> exists x :: x in edges && x.etype == IS_A && e == IsAInverse(x)
  {
    if |edges| == 0 then []
    else
      var p := edges[..|edges| - 1];
      var e := edges[|edges| - 1];
      assert edges == p + [e];
      Inverses(p) + (if e.etype == IS_A then [IsAInverse(e)] else [])
  }

  // ------------------------------------------------------ edge bookkeeping

  /** Both endpoints have a vertex number: the edges that reach the adjacency arrays. */
  predicate Known(e: Edge, idx: map<string, nat>) {
    e.source.value in idx && e.dest.value in idx
  }

  /** The source vertex of each kept edge, in order: the slot owners the offsets describe. */
  function SlotSources(es: seq<Edge>, idx: map<string, nat>): seq<nat> {
    if |es| == 0 then []
    else SlotSources(es[..|es| - 1], idx) + (if Known(es[|es| - 1], idx) then [idx[es[|es| - 1].source.value]] else [])
  }

  /** The destination vertex of each kept edge, in order: what edge_to_ receives. */
  function SlotDests(es: seq<Edge>, idx: map<string, nat>): seq<nat> {
    if |es| == 0 then []
    else SlotDests(es[..|es| - 1], idx) + (if Known(es[|es| - 1], idx) then [idx[es[|es| - 1].dest.value]] else [])
  }

  /** The type of each kept edge, in order: what edge_type_list_ receives. */
  function SlotTypes(es: seq<Edge>, idx: map<string, nat>): seq<EdgeType> {
    if |es| == 0 then []
    else SlotTypes(es[..|es| - 1], idx) + (if Known(es[|es| - 1], idx) then [es[|es| - 1].etype] else [])
  }

  lemma SlotsAppend(es: seq<Edge>, e: Edge, idx: map<string, nat>)
    ensures SlotSources(es + [e], idx) == SlotSources(es, idx) + (if Known(e, idx) then [idx[e.source.value]] else [])
    ensures SlotDests(es + [e], idx) == SlotDests(es, idx) + (if Known(e, idx) then [idx[e.dest.value]] else [])
    ensures SlotTypes(es + [e], idx) == SlotTypes(es, idx) + (if Known(e, idx) then [e.etype] else [])
  {
    assert (es + [e])[..|es|] == es;
  }

  /** Edge k adds its destination and its type when it is kept. */
  lemma SlotsStep(es: seq<Edge>, k: nat, idx: map<string, nat>)
    requires k < |es|
    ensures SlotDests(es[..k + 1], idx) == SlotDests(es[..k], idx) + (if Known(es[k], idx) then [idx[es[k].dest.value]] else [])
    ensures SlotTypes(es[..k + 1], idx) == SlotTypes(es[..k], idx) + (if Known(es[k], idx) then [es[k].etype] else [])
    ensures multiset(SlotTypes(es[..k + 1], idx))[IS_A]
      == multiset(SlotTypes(es[..k], idx))[IS_A] + (if Known(es[k], idx) && es[k].etype == IS_A then 1 else 0)
  {
    assert es[..k + 1][..k] == es[..k];
  }

  lemma AppendAssociates<T>(a: seq<T>, b: seq<T>, c: seq<T>)
    ensures (a + b) + c == a + (b + c)
  {
  }

  /** The loop of the third pass over the lists it extends: a slot per edge whose destination has a vertex number. */
  method AppendSlots(es: seq<Edge>, idx: map<string, nat>, to0: seq<nat>, types0: seq<EdgeType>, count0: nat)
    returns (to: seq<nat>, types: seq<EdgeType>, count: nat)
    requires forall k :: 0 <= k < |es| ==> es[k].source.value in idx
    ensures to == to0 + SlotDests(es, idx)
    ensures types == types0 + SlotTypes(es, idx)
    ensures count == count0 + multiset(SlotTypes(es, idx))[IS_A]
  {
    to, types, count := to0, types0, count0;
    for k := 0 to |es|
      invariant to == to0 + SlotDests(es[..k], idx)
      invariant types == types0 + SlotTypes(es[..k], idx)
      invariant count == count0 + multiset(SlotTypes(es[..k], idx))[IS_A]
    {
      var e := es[k];
      SlotsStep(es, k, idx);
      assert e.source.value in idx;
      if e.dest.value in idx {
        AppendAssociates(to0, SlotDests(es[..k], idx), [idx[e.dest.value]]);
        AppendAssociates(types0, SlotTypes(es[..k], idx), [e.etype]);
        to := to + [idx[e.dest.value]];
        types := types + [e.etype];
        if e.etype == IS_A {
          count := count + 1;
        }
      }
    }
    assert es[..|es|] == es;
  }

  /** The three lists have one entry per kept edge, and every vertex number is below n. */
  lemma {:induction false} SlotsShape(es: seq<Edge>, idx: map<string, nat>, n: nat)
    requires forall key :: key in idx ==> idx[key] < n
    ensures |SlotSources(es, idx)| == |SlotDests(es, idx)| == |SlotTypes(es, idx)|
    ensures forall k :: 0 <= k < |SlotSources(es, idx)| ==> SlotSources(es, idx)[k] < n
    ensures forall k :: 0 <= k < |SlotDests(es, idx)| ==> SlotDests(es, idx)[k] < n
  {
    if |es| > 0 {
      SlotsShape(es[..|es| - 1], idx, n);
    }
  }

  /** Each source entry comes from a kept edge of the input. */
  lemma {:induction false} SlotSourceOrigin(es: seq<Edge>, idx: map<string, nat>, k: nat) returns (i: nat)
    requires k < |SlotSources(es, idx)|
    ensures i < |es| && Known(es[i], idx) && SlotSources(es, idx)[k] == idx[es[i].source.value]
  {
    var p := es[..|es| - 1];
    if k < |SlotSources(p, idx)| {
      i := SlotSourceOrigin(p, idx, k);
      assert p[i] == es[i];
    } else {
      i := |es| - 1;
    }
  }

  /** A numbering that follows the order of values. */
  predicate MonotoneIndex(idx: map<string, nat>) {
    forall a, b :: a in idx && b in idx && LexLessEq(a, b) ==> idx[a] <= idx[b]
  }

  /** Edges sorted by (source, destination) give non-decreasing source vertices. */
  lemma {:induction false} SlotSourcesSorted(es: seq<Edge>, idx: map<string, nat>)
    requires SortedBy(es, EdgeKey) && MonotoneIndex(idx)
    ensures NonDecreasing(SlotSources(es, idx))
  {
    if |es| > 0 {
      var p := es[..|es| - 1];
      var e := es[|es| - 1];
      assert es == p + [e];
      SlotSourcesSorted(p, idx);
      SlotsAppend(p, e, idx);
      if Known(e, idx) {
        var s := SlotSources(p, idx);
        forall k | 0 <= k < |s| ensures s[k] <= idx[e.source.value] {
          var i := SlotSourceOrigin(p, idx, k);
          assert PairLeq(EdgeKey(es[i]), EdgeKey(es[|es| - 1]));
        }
      }
    }
  }

  /** The first loop of add_all_edges: the inverse of every IS_A edge, in input order. */
  method CollectInverses(edges: seq<Edge>) returns (inv: seq<Edge>)
    ensures inv == Inverses(edges)
  {
    inv := [];
    var i := 0;
    while i < |edges|
      invariant 0 <= i <= |edges|
      invariant inv == Inverses(edges[..i])
    {
      assert edges[..i + 1][..i] == edges[..i];
      if edges[i].etype == IS_A {
        inv := inv + [IsAInverse(edges[i])];
      }
      i := i + 1;
    }
    assert edges[..i] == edges;
  }

  /**
   * The first pass as the source writes it: every edge is counted under
   * its source vertex, whether or not its destination has a vertex number.
   */
  function AsWrittenSources(es: seq<Edge>, idx: map<string, nat>): seq<nat> {
    if |es| == 0 then []
    else
      var e := es[|es| - 1];
      AsWrittenSources(es[..|es| - 1], idx) + (if e.source.value in idx then [idx[e.source.value]] else [])
  }

  /** The edges with a numbered source and an unnumbered destination: counted as written, never filled. */
  function DanglingCount(es: seq<Edge>, idx: map<string, nat>): nat {
    if |es| == 0 then 0
    else
      var e := es[|es| - 1];
      DanglingCount(es[..|es| - 1], idx) + (if e.source.value in idx && e.dest.value !in idx then 1 else 0)
  }

  /** The as-written source list has an entry per kept edge and one per dangling edge. */
  lemma {:induction false} AsWrittenSourcesCount(es: seq<Edge>, idx: map<string, nat>)
    ensures |AsWrittenSources(es, idx)| == |SlotSources(es, idx)| + DanglingCount(es, idx)
  {
    if |es| > 0 {
      AsWrittenSourcesCount(es[..|es| - 1], idx);
    }
  }

  /** Every entry of the as-written source list is a vertex number. */
  lemma {:induction false} AsWrittenSourcesBelow(es: seq<Edge>, idx: map<string, nat>, n: nat)
    requires forall key :: key in idx ==> idx[key] < n
    ensures forall k :: 0 <= k < |AsWrittenSources(es, idx)| ==> AsWrittenSources(es, idx)[k] < n
  {
    if |es| > 0 {
      AsWrittenSourcesBelow(es[..|es| - 1], idx, n);
    }
  }

  /** Without dangling edges the count pass as written counts exactly the kept edges. */
  lemma {:induction false} AsWrittenSourcesWithoutDangling(es: seq<Edge>, idx: map<string, nat>)
    requires DanglingCount(es, idx) == 0
    ensures AsWrittenSources(es, idx) == SlotSources(es, idx)
  {
    if |es| > 0 {
      AsWrittenSourcesWithoutDangling(es[..|es| - 1], idx);
    }
  }

  /**
   * As written, the last offset, where the last vertex's block ends, is
   * the number of filled slots plus the number of dangling edges: it
   * passes the end of edge_to_ exactly when some edge has an unnumbered
   * destination.
   */
  lemma AsWrittenOffsetsEnd(es: seq<Edge>, idx: map<string, nat>, n: nat)
    requires forall key :: key in idx ==> idx[key] < n
    ensures Offsets(AsWrittenSources(es, idx), n)[n] == |SlotDests(es, idx)| + DanglingCount(es, idx)
    ensures Offsets(AsWrittenSources(es, idx), n)[n] > |SlotDests(es, idx)| <==> DanglingCount(es, idx) > 0
  {
    AsWrittenSourcesBelow(es, idx, n);
    CountLessAll(AsWrittenSources(es, idx), n);
    AsWrittenSourcesCount(es, idx);
    SlotsShape(es, idx, n);
  }

  /**
   * One term HP:1 with a single edge to X:1, a term the ontology does not
   * have: the as-written offsets give HP:1 one slot, offsets [0, 1], but
   * no slot is filled, so the block of HP:1 reaches past the end of
   * edge_to_.
   */
  lemma AsWrittenOffsetsOverrunEdges()
    ensures Offsets(AsWrittenSources([Edge(TermId("HP:1", 2), HAS_MODIFIER, TermId("X:1", 1))], map["HP:1" := 0]), 1)[1] == 1
    ensures SlotDests([Edge(TermId("HP:1", 2), HAS_MODIFIER, TermId("X:1", 1))], map["HP:1" := 0]) == []
  {
    var es := [Edge(TermId("HP:1", 2), HAS_MODIFIER, TermId("X:1", 1))];
    var idx := map["HP:1" := 0];
    assert es[..0] == [];
    assert "X:1" != "HP:1";
    assert AsWrittenSources(es, idx) == [0];
    assert SlotDests(es, idx) == [];
  }

  /** Filing terms keeps every key leading to a term that carries that key. */
  lemma {:induction false} InsertAllKeepsFiled(m: map<string, TermData>, terms: seq<TermData>)
    requires forall k :: k in m ==> k in KeySet(m[k])
    ensures forall k :: k in InsertAll(m, terms) ==> k in KeySet(InsertAll(m, terms)[k])
  {
    if |terms| > 0 {
      var p := InsertAll(m, terms[..|terms| - 1]);
      InsertAllKeepsFiled(m, terms[..|terms| - 1]);
      InsertTermFiles(p, terms[|terms| - 1]);
    }
  }

  /** The map holds one entry per distinct primary or alternative id. */
  lemma TotalIdsCountKeys(terms: seq<TermData>)
    ensures |InsertAll(map[], terms)| == |KeysOf(terms)|
  {
    InsertAllFiles(map[], terms);
    assert InsertAll(map[], terms).Keys == KeysOf(terms);
  }

  /** A term is left out of the current ids exactly when it is obsolete. */
  lemma {:induction false} CurrentIdsAll(terms: seq<TermData>)
    ensures |CurrentIds(terms)| == |terms| <==> forall i :: 0 <= i < |terms| ==> !terms[i].obsolete
  {
    IdsPartitionTerms(terms);
    if |terms| > 0 {
      var p := terms[..|terms| - 1];
      CurrentIdsAll(p);
      IdsPartitionTerms(p);
      if forall i :: 0 <= i < |p| ==> !p[i].obsolete {
        if !terms[|terms| - 1].obsolete {
          forall i | 0 <= i < |terms| ensures !terms[i].obsolete {
            if i < |p| { assert terms[i] == p[i]; }
          }
        }
      } else {
        var i :| 0 <= i < |p| && p[i].obsolete;
        assert terms[i] == p[i];
      }
    }
  }

  /** The kept edges, slot by slot: each lies in the block of its source vertex. */
  lemma SlotsInSourceBlocks(es: seq<Edge>, idx: map<string, nat>, n: nat)
    requires SortedBy(es, EdgeKey) && MonotoneIndex(idx)
    requires forall key :: key in idx ==> idx[key] < n
    ensures var s := SlotSources(es, idx);
      forall k :: 0 <= k < |s| ==> s[k] < n && Offsets(s, n)[s[k]] <= k < Offsets(s, n)[s[k] + 1]
  {
    SlotsShape(es, idx, n);
    SlotSourcesSorted(es, idx);
    OffsetsDelimitBlocks(SlotSources(es, idx), n);
  }

  lemma EmptyPrefix<T>(s: seq<T>)
    ensures [] + s == s
  {
  }

  // ------------------------------------------------ have_common_ancestor

  const UnrecognizedPrefix: string := "Unrecognized TermId: "

  /**
   * The three id checks of have_common_ancestor as written: t1, t2 and
   * root are looked up in turn, and each failure reports the value of t1.
   */
  function AsWrittenAncestorIdCheck(idx: map<string, nat>, t1: TermId, t2: TermId, root: TermId): (r: Option<Failure>)
    ensures r.None? <==> t1.value in idx && t2.value in idx && root.value in idx
    ensures r.Some? ==> r.value == PhenopacketException(UnrecognizedPrefix + t1.value)
  {
    if t1.value !in idx then Some(PhenopacketException(UnrecognizedPrefix + t1.value))
    else if t2.value !in idx then Some(PhenopacketException(UnrecognizedPrefix + t1.value))
    else if root.value !in idx then Some(PhenopacketException(UnrecognizedPrefix + t1.value))
    else None
  }

  /** The same checks, each failure reporting the id that was not found. */
  function AncestorIdCheck(idx: map<string, nat>, t1: TermId, t2: TermId, root: TermId): (r: Option<Failure>)
    ensures r.None? <==> t1.value in idx && t2.value in idx && root.value in idx
    ensures r.Some? ==>
      exists u :: u !in idx && (u == t1.value || u == t2.value || u == root.value) && r.value == PhenopacketException(UnrecognizedPrefix + u)
  {
    if t1.value !in idx then Some(PhenopacketException(UnrecognizedPrefix + t1.value))
    else if t2.value !in idx then Some(PhenopacketException(UnrecognizedPrefix + t2.value))
    else if root.value !in idx then Some(PhenopacketException(UnrecognizedPrefix + root.value))
    else None
  }

  /**
   * With HP:1 known and HP:2 not, the as-written check rejects t2 = HP:2
   * with a message naming HP:1, an id that is known.
   */
  lemma AsWrittenAncestorCheckNamesKnownId()
    ensures var idx := map["HP:1" := 0];
      var r := AsWrittenAncestorIdCheck(idx, TermId("HP:1", 2), TermId("HP:2", 2), TermId("HP:1", 2));
      r == Some(PhenopacketException(UnrecognizedPrefix + "HP:1")) && "HP:1" in idx
    ensures AncestorIdCheck(map["HP:1" := 0], TermId("HP:1", 2), TermId("HP:2", 2), TermId("HP:1", 2))
      == Some(PhenopacketException(UnrecognizedPrefix + "HP:2"))
  {
    assert "HP:2" != "HP:1";
  }

  // -------------------------------------------------------------- the graph

  class Ontology {
    var id: string
    var predicateValues: seq<PredicateValue>
    var propertyList: seq<Property>
    /** Every primary and alternative id, by value, to its term. */
    var termMap: map<string, TermData>
    /** Primary ids of the terms that are not obsolete, sorted. */
    var currentTermIds: seq<TermId>
    var obsoleteTermIds: seq<TermId>
    /** Id value to its position in currentTermIds: the vertex number. */
    var termidToIndex: map<string, nat>
    /** Vertex v's edges are the slots offsetToEdge[v] .. offsetToEdge[v+1]-1. */
    var offsetToEdge: seq<nat>
    var edgeTo: seq<nat>
    /** The relation of each slot, in the order of edgeTo. */
    var edgeTypeList: seq<EdgeType>
    var isAEdgeCount: nat

    /** The id table: sorted ids, each value numbered by a position that holds it. */
    ghost predicate TermsIndexed()
      reads this`currentTermIds, this`termidToIndex
    {
      SortedBy(currentTermIds, IdKey)
      && (forall i :: 0 <= i < |currentTermIds| ==>
            currentTermIds[i].value in termidToIndex && i <= termidToIndex[currentTermIds[i].value])
      && (forall k :: k in termidToIndex ==>
            termidToIndex[k] < |currentTermIds| && currentTermIds[termidToIndex[k]].value == k)
    }

    /** The three edge arrays as one value. */
    function EdgeArrays(): Arrays
      reads this
    {
      Arrays(offsetToEdge, edgeTo, edgeTypeList)
    }

    /**
     * The CSR invariant: the arrays are well formed over the numbered
     * ids, and isAEdgeCount counts the IS_A slots.
     */
    ghost predicate EdgesIndexed()
      reads this
    {
      IsCsr(EdgeArrays(), |currentTermIds|) && isAEdgeCount == multiset(edgeTypeList)[IS_A]
    }

    ghost predicate Valid()
      reads this
    {
      TermsIndexed() && EdgesIndexed()
    }

    ghost predicate EdgesEmpty()
      reads this
    {
      offsetToEdge == [] && edgeTo == [] && edgeTypeList == [] && isAEdgeCount == 0
    }

    /** The member initialisers of the constructor: id and metadata set, no terms, no edges. */
    constructor (id: string, predicates: seq<PredicateValue>, properties: seq<Property>)
      ensures this.id == id && predicateValues == predicates && propertyList == properties
      ensures termMap == map[] && currentTermIds == [] && obsoleteTermIds == [] && termidToIndex == map[]
      ensures EdgesEmpty()
    {
      this.id := id;
      predicateValues := predicates;
      propertyList := properties;
      termMap := map[];
      currentTermIds := [];
      obsoleteTermIds := [];
      termidToIndex := map[];
      offsetToEdge := [];
      edgeTo := [];
      edgeTypeList := [];
      isAEdgeCount := 0;
    }

    method SetId(id: string)
      modifies this`id
      ensures this.id == id
    {
      this.id := id;
    }

    /** A value describing the ontology goes at the end of its list; the count grows by one. */
    method AddPredicateValue(pv: PredicateValue)
      modifies this`predicateValues
      ensures predicateValues == old(predicateValues) + [pv]
      ensures PredicateCount() == old(PredicateCount()) + 1
    {
      predicateValues := predicateValues + [pv];
    }

    /** A property goes at the end of the list; the count grows by one. */
    method AddProperty(prop: Property)
      modifies this`propertyList
      ensures propertyList == old(propertyList) + [prop]
      ensures PropertyCount() == old(PropertyCount()) + 1
    {
      propertyList := propertyList + [prop];
    }

    /**
     * What construction from terms and edges leaves behind: the id and
     * CSR invariants, every key filed with its term, and every input
     * term current and numbered.
     */
    ghost predicate Built(terms: seq<TermData>)
      reads this
    {
      TermsBuilt(terms) && EdgesIndexed()
    }

    /** The id side of Built. */
    ghost predicate TermsBuilt(terms: seq<TermData>)
      reads this`termMap, this`currentTermIds, this`obsoleteTermIds, this`termidToIndex
    {
      TermsIndexed() && TermsFiled()
      && obsoleteTermIds == [] && |currentTermIds| == |terms|
    }

    /**
     * The body of the constructor on an empty ontology: add_all_terms,
     * then add_all_edges, whose offsets are those of the source when
     * corrected is false and those of the kept edges when it is true.
     * As written, the result satisfies the CSR invariant exactly when no
     * edge runs from a known term to an unknown one.
     */
    method AddTermsAndEdges(terms: seq<TermData>, edges: seq<Edge>, corrected: bool) returns (ok: bool, processed: seq<Edge>)
      requires termMap == map[] && currentTermIds == [] && obsoleteTermIds == [] && termidToIndex == map[]
      requires EdgesEmpty()
      modifies this`termMap, this`currentTermIds, this`obsoleteTermIds, this`termidToIndex
      modifies this`offsetToEdge, this`edgeTo, this`edgeTypeList, this`isAEdgeCount
      ensures ok ==> forall i :: 0 <= i < |terms| ==> !terms[i].obsolete
      ensures ok ==> TermsBuilt(terms) && processed == SortBy(edges + Inverses(edges), EdgeKey)
      ensures ok ==> edgeTo == SlotDests(processed, termidToIndex) && edgeTypeList == SlotTypes(processed, termidToIndex)
      ensures ok && corrected ==> offsetToEdge == Offsets(SlotSources(processed, termidToIndex), |currentTermIds|)
      ensures ok && !corrected ==> offsetToEdge == Offsets(AsWrittenSources(processed, termidToIndex), |currentTermIds|)
      ensures ok ==> (Built(terms) <==> corrected || DanglingCount(processed, termidToIndex) == 0)
    {
      processed := edges;
      ok := AddTermsToEmpty(terms);
      if !ok {
        return;
      }
      assert TermsBuilt(terms) && EdgesEmpty();
      ok, processed := AddAllEdges(edges, corrected);
      if ok {
        assert TermsBuilt(terms);
        EmptyPrefix(SlotDests(processed, termidToIndex));
        EmptyPrefix(SlotTypes(processed, termidToIndex));
        if corrected {
          EmptyPrefix(Offsets(SlotSources(processed, termidToIndex), |currentTermIds|));
        } else {
          EmptyPrefix(Offsets(AsWrittenSources(processed, termidToIndex), |currentTermIds|));
        }
      }
    }

    /**
     * add_all_terms on an empty ontology. Its sanity check compares the
     * current ids with all input terms, so an input holding any obsolete
     * term ends the process.
     */
    method AddTermsToEmpty(terms: seq<TermData>) returns (ok: bool)
      requires termMap == map[] && currentTermIds == [] && obsoleteTermIds == [] && termidToIndex == map[]
      modifies this`termMap, this`currentTermIds, this`obsoleteTermIds, this`termidToIndex
      ensures ok <==> forall i :: 0 <= i < |terms| ==> !terms[i].obsolete
      ensures ok ==> TermsBuilt(terms)
    {
      CurrentIdsAll(terms);
      ok := AddAllTerms(terms);
      EmptyPrefix(CurrentIds(terms));
      EmptyPrefix(ObsoleteIds(terms));
      if ok {
        InsertAllKeepsFiled(map[], terms);
        IdsPartitionTerms(terms);
      }
    }

    // ------------------------------------------------------------- counts

    /** The number of vertices: every vertex number is below it, and it owns one block per vertex. */
    function CurrentTermCount(): (r: nat)
      reads this
      ensures TermsIndexed() ==> forall k :: k in termidToIndex ==> termidToIndex[k] < r
      ensures EdgesIndexed() ==> |offsetToEdge| == r + 1
    {
      |currentTermIds|
    }

    /** Entries of the term map: primary and alternative ids alike. */
    function TotalTermIdCount(): nat
      reads this
    {
      |termMap|
    }

    /** The number of slots: under the CSR invariant exactly what the blocks cover. */
    function EdgeCount(): (r: nat)
      reads this
      ensures EdgesIndexed() ==> r == offsetToEdge[|currentTermIds|] && r == |edgeTypeList|
    {
      |edgeTo|
    }

    /** Under the CSR invariant, the number of IS_A slots, at most the number of slots. */
    function IsAEdgeCount(): (r: nat)
      reads this
      ensures EdgesIndexed() ==> r == multiset(edgeTypeList)[IS_A] && r <= EdgeCount()
    {
      isAEdgeCount
    }

    function PredicateCount(): nat
      reads this
    {
      |predicateValues|
    }

    function PropertyCount(): nat
      reads this
    {
      |propertyList|
    }

    /**
     * add_all_terms: file every term under its keys (existing entries win),
     * split primary ids into current and obsolete, sort the current ones,
     * then number them. The process exits, with the ids sorted but not
     * numbered, when the current ids do not account for every term.
     */
    method AddAllTerms(terms: seq<TermData>) returns (ok: bool)
      modifies this`termMap, this`currentTermIds, this`obsoleteTermIds, this`termidToIndex
      ensures termMap == InsertAll(old(termMap), terms)
      ensures obsoleteTermIds == old(obsoleteTermIds) + ObsoleteIds(terms)
      ensures currentTermIds == SortBy(old(currentTermIds) + CurrentIds(terms), IdKey)
      ensures ok <==> |currentTermIds| == |terms|
      ensures ok ==> termidToIndex == IndexMap(old(termidToIndex), currentTermIds)
      ensures !ok ==> termidToIndex == old(termidToIndex)
      ensures ok && old(termidToIndex) == map[] ==> TermsIndexed()
    {
      FileTerms(terms);
      currentTermIds := SortBy(currentTermIds, IdKey);
      if |currentTermIds| != |terms| {
        return false;
      }
      NumberIds();
      ok := true;
    }

    /** The loop of add_all_terms over the input terms. */
    method FileTerms(terms: seq<TermData>)
      modifies this`termMap, this`currentTermIds, this`obsoleteTermIds
      ensures termMap == InsertAll(old(termMap), terms)
      ensures currentTermIds == old(currentTermIds) + CurrentIds(terms)
      ensures obsoleteTermIds == old(obsoleteTermIds) + ObsoleteIds(terms)
    {
      var i := 0;
      while i < |terms|
        invariant 0 <= i <= |terms|
        invariant termMap == InsertAll(old(termMap), terms[..i])
        invariant currentTermIds == old(currentTermIds) + CurrentIds(terms[..i])
        invariant obsoleteTermIds == old(obsoleteTermIds) + ObsoleteIds(terms[..i])
      {
        ghost var p := terms[..i + 1];
        assert p[..i] == terms[..i] && p[i] == terms[i];
        FileTerm(terms[i]);
        assert InsertAll(old(termMap), p) == InsertTerm(InsertAll(old(termMap), terms[..i]), terms[i]);
        assert CurrentIds(p) == CurrentIds(terms[..i]) + (if terms[i].obsolete then [] else [terms[i].id]);
        assert ObsoleteIds(p) == ObsoleteIds(terms[..i]) + (if terms[i].obsolete then [terms[i].id] else []);
        i := i + 1;
      }
      assert terms[..i] == terms;
    }

    /** One pass of that loop: the term under its primary id, its id to one list, then its alternative ids. */
    method FileTerm(t: TermData)
      modifies this`termMap, this`currentTermIds, this`obsoleteTermIds
      ensures termMap == InsertTerm(old(termMap), t)
      ensures currentTermIds == old(currentTermIds) + (if t.obsolete then [] else [t.id])
      ensures obsoleteTermIds == old(obsoleteTermIds) + (if t.obsolete then [t.id] else [])
    {
      termMap := InsertKey(termMap, t.id.value, t);
      if t.obsolete {
        obsoleteTermIds := obsoleteTermIds + [t.id];
      } else {
        currentTermIds := currentTermIds + [t.id];
      }
      if |t.altIds| != 0 {
        var j := 0;
        ghost var m0 := termMap;
        ghost var c0 := currentTermIds;
        ghost var o0 := obsoleteTermIds;
        while j < |t.altIds|
          invariant 0 <= j <= |t.altIds|
          invariant termMap == InsertAlts(m0, t.altIds[..j], t)
          invariant currentTermIds == c0 && obsoleteTermIds == o0
        {
          assert t.altIds[..j + 1][..j] == t.altIds[..j];
          termMap := InsertKey(termMap, t.altIds[j].value, t);
          j := j + 1;
        }
        assert t.altIds[..j] == t.altIds;
      }
    }

    /** The numbering loop of add_all_terms: termid_to_index_[current_term_ids_[i]] = i. */
    method NumberIds()
      modifies this`termidToIndex
      ensures termidToIndex == IndexMap(old(termidToIndex), currentTermIds)
      ensures SortedBy(currentTermIds, IdKey) && old(termidToIndex) == map[] ==> TermsIndexed()
    {
      var k := 0;
      while k < |currentTermIds|
        invariant 0 <= k <= |currentTermIds|
        invariant termidToIndex == IndexMap(old(termidToIndex), currentTermIds[..k])
      {
        assert currentTermIds[..k + 1][..k] == currentTermIds[..k];
        termidToIndex := termidToIndex[currentTermIds[k].value := k];
        k := k + 1;
      }
      assert currentTermIds[..k] == currentTermIds;
      if old(termidToIndex) == map[] {
        forall i | 0 <= i < |currentTermIds|
          ensures currentTermIds[i].value in termidToIndex && i <= termidToIndex[currentTermIds[i].value]
        {
          IndexMapLast(old(termidToIndex), currentTermIds, i);
        }
        forall key | key in termidToIndex
          ensures termidToIndex[key] < |currentTermIds| && currentTermIds[termidToIndex[key]].value == key
        {
          IndexMapFresh(old(termidToIndex), currentTermIds, key);
        }
      }
    }

    /**
     * add_all_edges: append the inverse of every IS_A edge, sort by
     * (source, destination), count the edges of each source vertex, write
     * the offsets, then the destination and type of each edge. An edge
     * whose source has no vertex number ends the process before anything
     * is written; an edge whose destination has none is left out of the
     * slots. The source's count pass still counts such an edge
     * (AsWrittenBuildCsr, used when corrected is false); the corrected
     * build (BuildCsr) does not. The caller's edge list comes back
     * extended and sorted.
     */
    method AddAllEdges(edges: seq<Edge>, corrected: bool) returns (ok: bool, processed: seq<Edge>)
      modifies this`offsetToEdge, this`edgeTo, this`edgeTypeList, this`isAEdgeCount
      ensures processed == SortBy(edges + Inverses(edges), EdgeKey)
      ensures ok <==> forall k :: 0 <= k < |processed| ==> processed[k].source.value in termidToIndex
      ensures !ok ==> offsetToEdge == old(offsetToEdge) && edgeTo == old(edgeTo) && edgeTypeList == old(edgeTypeList)
      ensures !ok ==> isAEdgeCount == old(isAEdgeCount)
      ensures ok && corrected ==> offsetToEdge == old(offsetToEdge) + Offsets(SlotSources(processed, termidToIndex), |currentTermIds|)
      ensures ok && !corrected ==> offsetToEdge == old(offsetToEdge) + Offsets(AsWrittenSources(processed, termidToIndex), |currentTermIds|)
      ensures ok ==> edgeTo == old(edgeTo) + SlotDests(processed, termidToIndex)
      ensures ok ==> edgeTypeList == old(edgeTypeList) + SlotTypes(processed, termidToIndex)
      ensures ok ==> isAEdgeCount == old(isAEdgeCount) + multiset(SlotTypes(processed, termidToIndex))[IS_A]
      ensures ok && old(EdgesEmpty()) && TermsIndexed() ==>
        (Valid() <==> corrected || DanglingCount(processed, termidToIndex) == 0)
    {
      var inv := CollectInverses(edges);
      processed := SortBy(edges + inv, EdgeKey);
      ghost var wasEmpty := EdgesEmpty();
      if corrected {
        ok := BuildCsr(processed);
      } else {
        ok := AsWrittenBuildCsr(processed);
      }
      if ok && wasEmpty && TermsIndexed() {
        EmptyPrefix(SlotDests(processed, termidToIndex));
        EmptyPrefix(SlotTypes(processed, termidToIndex));
        if corrected {
          EmptyPrefix(Offsets(SlotSources(processed, termidToIndex), |currentTermIds|));
          BuiltGraphValid(processed);
        } else {
          EmptyPrefix(Offsets(AsWrittenSources(processed, termidToIndex), |currentTermIds|));
          if DanglingCount(processed, termidToIndex) == 0 {
            AsWrittenSourcesWithoutDangling(processed, termidToIndex);
            BuiltGraphValid(processed);
          } else {
            AsWrittenOffsetsEnd(processed, termidToIndex, |currentTermIds|);
          }
        }
      }
    }

    /** The three passes over the sorted edges, writing after the arrays' current ends. */
    method BuildCsr(es: seq<Edge>) returns (ok: bool)
      modifies this`offsetToEdge, this`edgeTo, this`edgeTypeList, this`isAEdgeCount
      ensures ok <==> forall k :: 0 <= k < |es| ==> es[k].source.value in termidToIndex
      ensures !ok ==> offsetToEdge == old(offsetToEdge) && edgeTo == old(edgeTo) && edgeTypeList == old(edgeTypeList)
      ensures !ok ==> isAEdgeCount == old(isAEdgeCount)
      ensures ok ==> offsetToEdge == old(offsetToEdge) + Offsets(SlotSources(es, termidToIndex), |currentTermIds|)
      ensures ok ==> edgeTo == old(edgeTo) + SlotDests(es, termidToIndex)
      ensures ok ==> edgeTypeList == old(edgeTypeList) + SlotTypes(es, termidToIndex)
      ensures ok ==> isAEdgeCount == old(isAEdgeCount) + multiset(SlotTypes(es, termidToIndex))[IS_A]
    {
      var counts;
      ok, counts := CountEdgesBySource(es);
      if !ok {
        return;
      }
      FillOffsets(counts, SlotSources(es, termidToIndex));
      FillEdges(es);
    }

    /** Arrays built from sorted edges over a fresh id table satisfy the CSR invariant. */
    lemma BuiltGraphValid(es: seq<Edge>)
      requires TermsIndexed() && SortedBy(es, EdgeKey)
      requires edgeTo == SlotDests(es, termidToIndex) && edgeTypeList == SlotTypes(es, termidToIndex)
      requires offsetToEdge == Offsets(SlotSources(es, termidToIndex), |currentTermIds|)
      requires isAEdgeCount == multiset(edgeTypeList)[IS_A]
      ensures Valid()
    {
      var n := |currentTermIds|;
      SlotsShape(es, termidToIndex, n);
      TermsIndexedMonotone();
      SlotSourcesSorted(es, termidToIndex);
      OffsetsDelimitBlocks(SlotSources(es, termidToIndex), n);
    }

    /**
     * The first pass: how many kept edges leave each source vertex. It
     * fails at the first edge whose source has no vertex number.
     */
    method CountEdgesBySource(es: seq<Edge>) returns (ok: bool, counts: map<nat, nat>)
      ensures ok <==> forall k :: 0 <= k < |es| ==> es[k].source.value in termidToIndex
      ensures ok ==> counts == CountMap(SlotSources(es, termidToIndex))
    {
      counts := map[];
      var k := 0;
      while k < |es|
        invariant 0 <= k <= |es|
        invariant forall j :: 0 <= j < k ==> es[j].source.value in termidToIndex
        invariant counts == CountMap(SlotSources(es[..k], termidToIndex))
      {
        var e := es[k];
        assert es[..k + 1] == es[..k] + [e];
        SlotsAppend(es[..k], e, termidToIndex);
        if e.source.value !in termidToIndex {
          return false, counts;
        }
        if e.dest.value in termidToIndex {
          var idx := termidToIndex[e.source.value];
          ghost var s0 := SlotSources(es[..k], termidToIndex);
          assert SlotSources(es[..k + 1], termidToIndex) == s0 + [idx];
          assert (s0 + [idx])[..|s0|] == s0;
          assert CountMap(s0 + [idx]) == counts[idx := (if idx in counts then counts[idx] else 0) + 1];
          if idx !in counts {
            counts := counts[idx := 1];
          } else {
            counts := counts[idx := 1 + counts[idx]];
          }
        } else {
          assert SlotSources(es[..k + 1], termidToIndex) == SlotSources(es[..k], termidToIndex);
        }
        k := k + 1;
      }
      assert es[..k] == es;
      ok := true;
    }

    /**
     * The first pass as written: every edge is counted under its source
     * vertex, whether its destination has a vertex number or not.
     */
    method AsWrittenCountEdgesBySource(es: seq<Edge>) returns (ok: bool, counts: map<nat, nat>)
      ensures ok <==> forall k :: 0 <= k < |es| ==> es[k].source.value in termidToIndex
      ensures ok ==> counts == CountMap(AsWrittenSources(es, termidToIndex))
    {
      counts := map[];
      var k := 0;
      while k < |es|
        invariant 0 <= k <= |es|
        invariant forall j :: 0 <= j < k ==> es[j].source.value in termidToIndex
        invariant counts == CountMap(AsWrittenSources(es[..k], termidToIndex))
      {
        var e := es[k];
        assert es[..k + 1][..k] == es[..k];
        if e.source.value !in termidToIndex {
          return false, counts;
        }
        var idx := termidToIndex[e.source.value];
        ghost var s0 := AsWrittenSources(es[..k], termidToIndex);
        assert AsWrittenSources(es[..k + 1], termidToIndex) == s0 + [idx];
        assert (s0 + [idx])[..|s0|] == s0;
        if idx !in counts {
          counts := counts[idx := 1];
        } else {
          counts := counts[idx := 1 + counts[idx]];
        }
        k := k + 1;
      }
      assert es[..k] == es;
      ok := true;
    }

    /**
     * The three passes as written: the offsets count the dangling edges
     * that the third pass leaves out, so the blocks no longer match the
     * slots once an edge has an unnumbered destination (AsWrittenOffsetsEnd).
     */
    method AsWrittenBuildCsr(es: seq<Edge>) returns (ok: bool)
      modifies this`offsetToEdge, this`edgeTo, this`edgeTypeList, this`isAEdgeCount
      ensures ok <==> forall k :: 0 <= k < |es| ==> es[k].source.value in termidToIndex
      ensures !ok ==> offsetToEdge == old(offsetToEdge) && edgeTo == old(edgeTo) && edgeTypeList == old(edgeTypeList)
      ensures !ok ==> isAEdgeCount == old(isAEdgeCount)
      ensures ok ==> offsetToEdge == old(offsetToEdge) + Offsets(AsWrittenSources(es, termidToIndex), |currentTermIds|)
      ensures ok ==> edgeTo == old(edgeTo) + SlotDests(es, termidToIndex)
      ensures ok ==> edgeTypeList == old(edgeTypeList) + SlotTypes(es, termidToIndex)
      ensures ok ==> isAEdgeCount == old(isAEdgeCount) + multiset(SlotTypes(es, termidToIndex))[IS_A]
    {
      var counts;
      ok, counts := AsWrittenCountEdgesBySource(es);
      if !ok {
        return;
      }
      FillOffsets(counts, AsWrittenSources(es, termidToIndex));
      FillEdges(es);
    }

    /** The second pass: offset v is the number of kept edges whose source vertex is below v. */
    method FillOffsets(counts: map<nat, nat>, ghost sources: seq<nat>)
      requires counts == CountMap(sources)
      modifies this`offsetToEdge
      ensures offsetToEdge == old(offsetToEdge) + Offsets(sources, |currentTermIds|)
    {
      ghost var base := offsetToEdge;
      CountMapCounts(sources);
      offsetToEdge := offsetToEdge + [0];
      CountLessZero(sources);
      var offset := 0;
      var i := 0;
      while i < |currentTermIds|
        invariant 0 <= i <= |currentTermIds|
        invariant offset == CountLess(sources, i)
        invariant offsetToEdge == base + Offsets(sources, |currentTermIds|)[..i + 1]
      {
        CountLessStep(sources, i);
        if i in counts {
          offset := offset + counts[i];
        }
        offsetToEdge := offsetToEdge + [offset];
        assert Offsets(sources, |currentTermIds|)[..i + 2] == Offsets(sources, |currentTermIds|)[..i + 1] + [offset];
        i := i + 1;
      }
      assert Offsets(sources, |currentTermIds|)[..i + 1] == Offsets(sources, |currentTermIds|);
    }

    /** The third pass: each edge whose destination has a vertex number fills the next slot. */
    method FillEdges(es: seq<Edge>)
      requires forall k :: 0 <= k < |es| ==> es[k].source.value in termidToIndex
      modifies this`edgeTo, this`edgeTypeList, this`isAEdgeCount
      ensures edgeTo == old(edgeTo) + SlotDests(es, termidToIndex)
      ensures edgeTypeList == old(edgeTypeList) + SlotTypes(es, termidToIndex)
      ensures isAEdgeCount == old(isAEdgeCount) + multiset(SlotTypes(es, termidToIndex))[IS_A]
    {
      var to, types, count := AppendSlots(es, termidToIndex, edgeTo, edgeTypeList, isAEdgeCount);
      edgeTo, edgeTypeList, isAEdgeCount := to, types, count;
    }

    /** Numbering follows the order of values. */
    lemma TermsIndexedMonotone()
      requires TermsIndexed()
      ensures MonotoneIndex(termidToIndex)
    {
      forall a, b | a in termidToIndex && b in termidToIndex && LexLessEq(a, b)
        ensures termidToIndex[a] <= termidToIndex[b]
      {
        var i, j := termidToIndex[a], termidToIndex[b];
        if j < i {
          assert PairLeq(IdKey(currentTermIds[j]), IdKey(currentTermIds[i]));
          if LexLess(a, b) {
            LexLessAsymmetric(a, b);
          }
        }
      }
    }

    // ------------------------------------------------------------ queries

    /** std::map lookup: the term filed under the value of tid, if any. */
    function GetTerm(tid: TermId): (r: Option<TermData>)
      reads this
      ensures r.Some? <==> tid.value in termMap
      ensures r.Some? && TermsFiled() ==> tid.value in KeySet(r.value)
    {
      if tid.value in termMap then Some(termMap[tid.value]) else None
    }

    /** Every key leads to a term that has that key as its primary or an alternative id. */
    ghost predicate TermsFiled()
      reads this`termMap
    {
      forall k :: k in termMap ==> k in KeySet(termMap[k])
    }

    /** Some edge of type t leads from vertex v to the term p. */
    ghost predicate HasEdgeTo(v: nat, p: TermId, t: EdgeType)
      reads this
    {
      exists k: nat :: InBlock(EdgeArrays(), v, k) && k < |edgeTo| && k < |edgeTypeList| && edgeTypeList[k] == t
        && edgeTo[k] < |currentTermIds| && currentTermIds[edgeTo[k]] == p
    }

    /**
     * get_isa_parents: nothing for an unknown id; otherwise the terms one
     * IS_A edge away, in the order of the id's block.
     */
    method GetIsaParents(child: TermId) returns (parents: seq<TermId>)
      requires Valid()
      ensures child.value !in termidToIndex ==> parents == []
      ensures child.value in termidToIndex ==>
        var v := termidToIndex[child.value];
        var ts := Targets(EdgeArrays(), offsetToEdge[v], offsetToEdge[v + 1], IS_A);
        |parents| == |ts| && forall i :: 0 <= i < |ts| ==> ts[i] < |currentTermIds| && parents[i] == currentTermIds[ts[i]]
      ensures forall p :: p in parents <==> child.value in termidToIndex && HasEdgeTo(termidToIndex[child.value], p, IS_A)
    {
      parents := [];
      if child.value !in termidToIndex {
        return;
      }
      var idx := termidToIndex[child.value];
      ghost var g := EdgeArrays();
      ghost var n := |currentTermIds|;
      assert offsetToEdge[idx + 1] <= offsetToEdge[n];
      var i := offsetToEdge[idx];
      while i < offsetToEdge[1 + idx]
        invariant offsetToEdge[idx] <= i <= offsetToEdge[idx + 1]
        invariant |parents| == |Targets(g, offsetToEdge[idx], i, IS_A)|
        invariant forall j :: 0 <= j < |parents| ==>
          Targets(g, offsetToEdge[idx], i, IS_A)[j] < n && parents[j] == currentTermIds[Targets(g, offsetToEdge[idx], i, IS_A)[j]]
      {
        if edgeTypeList[i] != IS_A {
          i := i + 1;
          continue;
        }
        var nextNode := edgeTo[i];
        var par := currentTermIds[nextNode];
        parents := parents + [par];
        i := i + 1;
      }
      forall p ensures p in parents <==> HasEdgeTo(idx, p, IS_A) {
        ParentsAreTargets(parents, idx, p);
      }
    }

    lemma ParentsAreTargets(parents: seq<TermId>, v: nat, p: TermId)
      requires Valid() && v < |currentTermIds|
      requires var ts := Targets(EdgeArrays(), offsetToEdge[v], offsetToEdge[v + 1], IS_A);
        |parents| == |ts| && forall i :: 0 <= i < |ts| ==> ts[i] < |currentTermIds| && parents[i] == currentTermIds[ts[i]]
      ensures p in parents <==> HasEdgeTo(v, p, IS_A)
    {
      var g := EdgeArrays();
      var n := |currentTermIds|;
      var ts := Targets(g, offsetToEdge[v], offsetToEdge[v + 1], IS_A);
      if p in parents {
        var i :| 0 <= i < |parents| && parents[i] == p;
        BlockTargets(g, n, v, IS_A, ts[i]);
        assert ts[i] in ts;
      }
      if HasEdgeTo(v, p, IS_A) {
        var k: nat :| InBlock(g, v, k) && k < |edgeTo| && k < |edgeTypeList| && edgeTypeList[k] == IS_A
          && edgeTo[k] < n && currentTermIds[edgeTo[k]] == p;
        BlockTargets(g, n, v, IS_A, edgeTo[k]);
        var i :| 0 <= i < |ts| && ts[i] == edgeTo[k];
        assert parents[i] == p;
      }
    }

    /**
     * exists_path: false when either id is unknown; otherwise true exactly
     * when dest is reachable from source along one or more edges of type
     * etype. The search (Graph.Search) keeps no visited set, so it ends
     * only because the etype-subgraph has no cycle, which rank witnesses.
     */
    method ExistsPath(source: TermId, dest: TermId, etype: EdgeType, ghost rank: seq<nat>) returns (found: bool)
      requires Valid() && Acyclic(EdgeArrays(), |currentTermIds|, etype, rank)
      ensures found <==> (source.value in termidToIndex && dest.value in termidToIndex
        && Reaches(EdgeArrays(), termidToIndex[source.value], termidToIndex[dest.value], etype))
    {
      if source.value !in termidToIndex {
        return false;
      }
      var index := termidToIndex[source.value];
      if dest.value !in termidToIndex {
        return false;
      }
      var destIdx := termidToIndex[dest.value];
      found := Search(EdgeArrays(), |currentTermIds|, index, destIdx, etype, rank);
    }

    /** The two-argument exists_path: the same search along IS_A edges. */
    method ExistsIsaPath(source: TermId, dest: TermId, ghost rank: seq<nat>) returns (found: bool)
      requires Valid() && Acyclic(EdgeArrays(), |currentTermIds|, IS_A, rank)
      ensures found <==> (source.value in termidToIndex && dest.value in termidToIndex
        && Reaches(EdgeArrays(), termidToIndex[source.value], termidToIndex[dest.value], IS_A))
    {
      found := ExistsPath(source, dest, IS_A, rank);
    }
  }

  /**
   * The Ontology constructor: the initialisers, add_all_terms, then
   * add_all_edges. Either pass can end the process with exit(1), which
   * the model returns as an error. With corrected false the offsets are
   * the source's, which satisfy the CSR invariant exactly when no edge
   * dangles; with corrected true they are those of the kept edges.
   */
  method NewOntology(id: string, terms: seq<TermData>, edges: seq<Edge>,
                     predicates: seq<PredicateValue>, properties: seq<Property>, corrected: bool)
    returns (r: Result<Ontology>, processed: seq<Edge>)
    ensures r.Err? ==> r.error == Exit(1)
    ensures r.Ok? ==> forall i :: 0 <= i < |terms| ==> !terms[i].obsolete
    ensures r.Ok? ==> fresh(r.value) && r.value.TermsBuilt(terms)
    ensures r.Ok? ==> processed == SortBy(edges + Inverses(edges), EdgeKey)
    ensures r.Ok? ==> r.value.id == id && r.value.predicateValues == predicates && r.value.propertyList == properties
    ensures r.Ok? ==> r.value.edgeTo == SlotDests(processed, r.value.termidToIndex)
                      && r.value.edgeTypeList == SlotTypes(processed, r.value.termidToIndex)
    ensures r.Ok? && corrected ==>
      r.value.offsetToEdge == Offsets(SlotSources(processed, r.value.termidToIndex), |r.value.currentTermIds|)
    ensures r.Ok? && !corrected ==>
      r.value.offsetToEdge == Offsets(AsWrittenSources(processed, r.value.termidToIndex), |r.value.currentTermIds|)
    ensures r.Ok? ==> (r.value.Built(terms) <==> corrected || DanglingCount(processed, r.value.termidToIndex) == 0)
  {
    var o := new Ontology(id, predicates, properties);
    var ok;
    ok, processed := o.AddTermsAndEdges(terms, edges, corrected);
    if !ok {
      return Err(Exit(1)), processed;
    }
    r := Ok(o);
  }
}
