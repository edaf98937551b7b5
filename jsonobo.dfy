/**
 * The node reader of the older OBO-JSON parser (src/jsonobo.cc): which
 * nodes of the "graphs"[0]["nodes"] array become terms, how their ids are
 * normalised, what of their "meta" object is kept, and how the node loop
 * stops at the first JsonParseException.
 *
 * Xref::fromCurieString, Xref::of and PropertyValue::of are not part of
 * this model: a cross-reference or property value is kept as the JSON
 * value it would be made from.
 */
module JsonObo {
  import opened Wrappers
  import opened Strings
  import opened TermIds
  import opened Json

  const EXIT_FAILURE := 1

  /** The term add_node builds: id and name, then what the meta object adds. */
  datatype OboTerm = OboTerm(
    id: string,
    name: string,
    definition: string,
    definitionXrefs: seq<Json>,
    termXrefs: seq<Json>,
    propertyValues: seq<Json>)

  // ------------------------------------------------------------------ ids

  /** The id of a node: the text after its last '/', with its first '_' turned into ':'. */
  function NodeId(raw: string): (r: string)
    ensures '/' !in r
  {
    var cp := Suffix(raw);
    match FindChar(cp, '_')
    case None => cp
    case Some(i) =>
      var r := ReplaceAt(cp, i, ':');
      assert forall c :: c in r ==> c in cp || c == ':';
      r
  }

  /**
   * A node id keeps the last segment of its IRI: unchanged when it has no
   * '_', otherwise with ':' at the first '_' and nothing else changed.
   */
  lemma NodeIdMeaning(raw: string)
    ensures |NodeId(raw)| == |Suffix(raw)|
    ensures '_' !in Suffix(raw) ==> NodeId(raw) == Suffix(raw)
    ensures forall i :: 0 <= i < |Suffix(raw)| && Suffix(raw)[i] == '_' && '_' !in Suffix(raw)[..i] ==>
      NodeId(raw) == Suffix(raw)[..i] + ":" + Suffix(raw)[i + 1..]
  {
    var cp := Suffix(raw);
    forall i | 0 <= i < |cp| && cp[i] == '_' && '_' !in cp[..i]
      ensures NodeId(raw) == cp[..i] + ":" + cp[i + 1..]
    {
      NodeIdAt(raw, i);
    }
  }

  /** The first '_' of the last segment, at i, is where NodeId puts its ':'. */
  lemma NodeIdAt(raw: string, i: nat)
    requires i < |Suffix(raw)| && Suffix(raw)[i] == '_' && '_' !in Suffix(raw)[..i]
    ensures NodeId(raw) == Suffix(raw)[..i] + ":" + Suffix(raw)[i + 1..]
  {
    var cp := Suffix(raw);
    FindCharAt(cp, '_', i);
    assert FindChar(cp, '_') == Some(i);
    assert NodeId(raw) == ReplaceAt(cp, i, ':');
  }

  /**
   * On an OBO PURL such as ".../obo/HP_0000118" the node id is the value
   * the older TermId::from_string gives: both take the last segment and
   * turn its first '_' into ':'.
   */
  lemma NodeIdAgreesWithLegacy(raw: string)
    requires ':' !in Suffix(raw) && '_' in Suffix(raw)
    ensures LegacyFromString(raw).Ok? && NodeId(raw) == LegacyFromString(raw).value.value
  {
  }

  // ------------------------------------------------------------ the meta

  /** The "val" of each element of the meta xrefs, skipping those without one; an element that is no object cannot be searched. */
  function XrefVals(items: seq<Json>): (r: Result<seq<Json>>)
    ensures r.Err? ==> r.error.UndefinedBehaviour?
  {
    if |items| == 0 then Ok([])
    else
      match XrefVals(items[..|items| - 1])
      case Err(e) => Err(e)
      case Ok(vs) =>
        var e := items[|items| - 1];
        if !e.JObject? then Err(UndefinedBehaviour("FindMember on an xref that is not an object"))
        else if HasMember(e, "val") then Ok(vs + [Member(e, "val").value])
        else Ok(vs)
  }

  /**
   * The xref values are found exactly when every element is an object,
   * and then each one is the "val" of some element, no more of them than
   * elements.
   */
  lemma {:induction false} XrefValsMeaning(items: seq<Json>)
    ensures XrefVals(items).Ok? <==> forall k :: 0 <= k < |items| ==> items[k].JObject?
    ensures XrefVals(items).Ok? ==> |XrefVals(items).value| <= |items|
    ensures XrefVals(items).Ok? ==> forall v :: v in XrefVals(items).value ==>
      exists k :: 0 <= k < |items| && HasMember(items[k], "val") && Member(items[k], "val").value == v
  {
    if |items| > 0 {
      var n := |items| - 1;
      XrefValsMeaning(items[..n]);
      assert forall k :: 0 <= k < n ==> items[..n][k] == items[k];
    }
  }

  /** What the definition object adds: its "val" as the definition, its "xrefs" as definition xrefs. */
  function DefinitionTerm(t: OboTerm, def: Json): (r: Result<OboTerm>)
    requires def.JObject?
    ensures r.Ok? ==> r.value.id == t.id && r.value.name == t.name
    ensures r.Err? ==> !r.error.JsonParseException?
    ensures r.Err? && r.error.Exit? ==> r.error == Exit(EXIT_FAILURE)
  {
    var withVal :=
      if !HasMember(def, "val") then Ok(t)
      else match GetString(Member(def, "val").value)
        case Err(e) => Err(e)
        case Ok(d) => Ok(t.(definition := d));
    match withVal
    case Err(e) => Err(e)
    case Ok(t1) =>
      if !HasMember(def, "xrefs") then Ok(t1)
      else
        var x := Member(def, "xrefs").value;
        if !x.JArray? then Err(Exit(EXIT_FAILURE))
        else Ok(t1.(definitionXrefs := t1.definitionXrefs + x.items))
  }

  /** What the meta xrefs add, and within them (as the braces nest) the basic property values. */
  function MetaXrefsTerm(t: OboTerm, meta: Json): (r: Result<OboTerm>)
    requires meta.JObject?
    ensures r.Ok? ==> r.value.id == t.id && r.value.name == t.name
    ensures r.Err? ==> !r.error.Exit? && HasMember(meta, "xrefs")
  {
    if !HasMember(meta, "xrefs") then Ok(t)
    else
      var x := Member(meta, "xrefs").value;
      if !x.JArray? then Err(JsonParseException("Term Xrefs not array"))
      else
        match XrefVals(x.items)
        case Err(e) => Err(e)
        case Ok(vs) =>
          var t2 := t.(termXrefs := t.termXrefs + vs);
          if !HasMember(meta, "basicPropertyValues") then Ok(t2)
          else
            var pv := Member(meta, "basicPropertyValues").value;
            if !pv.JArray? then Err(JsonParseException("Term property values not array"))
            else Ok(t2.(propertyValues := t2.propertyValues + pv.items))
  }

  /**
   * What the meta object adds; everything but the definition only when a
   * definition is present. It never changes the id or the label; a
   * JsonParseException needs a definition and meta xrefs, a fatal exit a
   * definition.
   */
  function MetaTerm(t: OboTerm, meta: Json): (r: Result<OboTerm>)
    requires meta.JObject?
    ensures r.Ok? ==> r.value.id == t.id && r.value.name == t.name
    ensures r.Err? && r.error.JsonParseException? ==> HasMember(meta, "definition") && HasMember(meta, "xrefs")
    ensures r.Err? && r.error.Exit? ==> HasMember(meta, "definition") && r.error == Exit(EXIT_FAILURE)
  {
    if !HasMember(meta, "definition") then Ok(t)
    else
      var def := Member(meta, "definition").value;
      if !def.JObject? then Err(UndefinedBehaviour("FindMember on a definition that is not an object"))
      else
        match DefinitionTerm(t, def)
        case Err(e) => Err(e)
        case Ok(t1) => MetaXrefsTerm(t1, meta)
  }

  // ------------------------------------------------------------ a node

  /** A node's string member, read with GetString. */
  function StringMember(val: Json, key: string): (r: Result<string>)
    requires HasMember(val, key)
    ensures r.Ok? <==> Member(val, key).value.JString?
    ensures r.Ok? ==> r.value == Member(val, key).value.str
    ensures r.Err? ==> r.error.UndefinedBehaviour?
  {
    GetString(Member(val, key).value)
  }

  /**
   * add_node on one node: None when it is skipped, the term it appends
   * otherwise, or how it fails. The checks come in source order: an
   * object, its "type" equal to "CLASS", then ClassNodeTerm.
   */
  function NodeTerm(val: Json): (r: Result<Option<OboTerm>>)
    ensures (!val.JObject? || !HasMember(val, "type")) ==> r == Ok(None)
    ensures (val.JObject? && HasMember(val, "type") && Member(val, "type").value.JString?
             && Member(val, "type").value.str != "CLASS") ==> r == Ok(None)
    ensures (val.JObject? && HasMember(val, "type") && Member(val, "type").value == JString("CLASS")
             && !HasMember(val, "id")) ==> r == Ok(None)
    ensures (val.JObject? && HasMember(val, "type") && Member(val, "type").value == JString("CLASS")
             && HasMember(val, "id") && Member(val, "id").value.JString?
             && !HasMember(val, "lbl")) ==> r == Ok(None)
  {
    if !val.JObject? || !HasMember(val, "type") then Ok(None)
    else
      match StringMember(val, "type")
      case Err(e) => Err(e)
      case Ok(ty) => if ty != "CLASS" then Ok(None) else ClassNodeTerm(val)
  }

  /** A class node: its "id", normalised, then NamedNodeTerm. */
  function ClassNodeTerm(val: Json): Result<Option<OboTerm>>
    requires val.JObject?
  {
    if !HasMember(val, "id") then Ok(None)
    else
      match StringMember(val, "id")
      case Err(e) => Err(e)
      case Ok(raw) => NamedNodeTerm(val, NodeId(raw))
  }

  /** A class node with an id: its "lbl", then MetaNodeTerm on the new term. */
  function NamedNodeTerm(val: Json, id: string): Result<Option<OboTerm>>
    requires val.JObject?
  {
    if !HasMember(val, "lbl") then Ok(None)
    else
      match StringMember(val, "lbl")
      case Err(e) => Err(e)
      case Ok(name) => MetaNodeTerm(val, OboTerm(id, name, "", [], [], []))
  }

  /** The new term t of a node: appended only when the node has a meta object, with what the meta adds. */
  function MetaNodeTerm(val: Json, t: OboTerm): (r: Result<Option<OboTerm>>)
    requires val.JObject?
    ensures r.Ok? && r.value.Some? ==>
      HasMember(val, "meta") && Member(val, "meta").value.JObject?
      && r.value.value.id == t.id && r.value.value.name == t.name
    ensures !HasMember(val, "meta") || !Member(val, "meta").value.JObject? ==> r == Ok(None)
  {
    if !HasMember(val, "meta") || !Member(val, "meta").value.JObject? then Ok(None)
    else
      match MetaTerm(t, Member(val, "meta").value)
      case Err(e) => Err(e)
      case Ok(u) => Ok(Some(u))
  }

  /** A node is a class node with an id, a label and a meta object, all of the right kinds. */
  predicate Kept(val: Json) {
    && val.JObject?
    && HasMember(val, "type") && Member(val, "type").value == JString("CLASS")
    && HasMember(val, "id") && Member(val, "id").value.JString?
    && HasMember(val, "lbl") && Member(val, "lbl").value.JString?
    && HasMember(val, "meta") && Member(val, "meta").value.JObject?
  }

  /**
   * A node gives a term only when it is kept, and then the term has the
   * node's normalised id and its label.
   */
  lemma NodeTermKept(val: Json)
    ensures NodeTerm(val).Ok? && NodeTerm(val).value.Some? ==>
      Kept(val)
      && NodeTerm(val).value.value.id == NodeId(Member(val, "id").value.str)
      && NodeTerm(val).value.value.name == Member(val, "lbl").value.str
  {
    if NodeTerm(val).Ok? && NodeTerm(val).value.Some? {
      assert val.JObject? && HasMember(val, "type");
      assert StringMember(val, "type") == Ok("CLASS");
      assert NodeTerm(val) == ClassNodeTerm(val);
      assert HasMember(val, "id") && StringMember(val, "id").Ok?;
      var id := NodeId(Member(val, "id").value.str);
      assert NodeTerm(val) == NamedNodeTerm(val, id);
      assert HasMember(val, "lbl") && StringMember(val, "lbl").Ok?;
    }
  }

  /** A node without a meta object, or whose meta is no object, is never added and never fails there. */
  lemma NodeWithoutMetaSkipped(val: Json)
    requires val.JObject? && (!HasMember(val, "meta") || !Member(val, "meta").value.JObject?)
    ensures NodeTerm(val).Ok? ==> NodeTerm(val) == Ok(None)
    ensures NodeTerm(val).Err? ==> NodeTerm(val).error.UndefinedBehaviour?
  {
    if HasMember(val, "type") && StringMember(val, "type") == Ok("CLASS") {
      assert NodeTerm(val) == ClassNodeTerm(val);
      if HasMember(val, "id") && StringMember(val, "id").Ok? {
        assert NodeTerm(val) == NamedNodeTerm(val, NodeId(StringMember(val, "id").value));
      }
    }
  }

  /**
   * A JsonParseException comes only from a kept node whose meta object has
   * a definition and xrefs; a fatal exit only from a kept node with a
   * definition, and it is exit(EXIT_FAILURE).
   */
  lemma NodeTermFailures(val: Json)
    ensures NodeTerm(val).Err? && NodeTerm(val).error.JsonParseException? ==>
      Kept(val) && HasMember(Member(val, "meta").value, "definition")
      && HasMember(Member(val, "meta").value, "xrefs")
    ensures NodeTerm(val).Err? && NodeTerm(val).error.Exit? ==>
      Kept(val) && HasMember(Member(val, "meta").value, "definition")
      && NodeTerm(val).error == Exit(EXIT_FAILURE)
  {
    if NodeTerm(val).Err? && !NodeTerm(val).error.UndefinedBehaviour? {
      assert val.JObject? && HasMember(val, "type");
      assert StringMember(val, "type") == Ok("CLASS");
      assert NodeTerm(val) == ClassNodeTerm(val);
      assert HasMember(val, "id") && StringMember(val, "id").Ok?;
      var id := NodeId(Member(val, "id").value.str);
      assert NodeTerm(val) == NamedNodeTerm(val, id);
      assert HasMember(val, "lbl") && StringMember(val, "lbl").Ok?;
      var t := OboTerm(id, Member(val, "lbl").value.str, "", [], [], []);
      assert NodeTerm(val) == MetaNodeTerm(val, t);
    }
  }

  // -------------------------------------------------------- the node loop

  /** The terms added so far, and whether a JsonParseException ended the loop. */
  datatype Progress = Progress(terms: seq<OboTerm>, stopped: bool)

  /**
   * The loop over the nodes inside its try block, with node for add_node:
   * the terms of the nodes in order, up to the first JsonParseException,
   * which is caught and ends the loop; any other failure ends the program.
   */
  function Ingested(nodes: seq<Json>, node: Json -> Result<Option<OboTerm>>): Result<Progress> {
    if |nodes| == 0 then Ok(Progress([], false))
    else
      match Ingested(nodes[..|nodes| - 1], node)
      case Err(e) => Err(e)
      case Ok(pr) => if pr.stopped then Ok(pr) else Step(pr, node(nodes[|nodes| - 1]))
  }

  /** What one node's outcome does to a loop that has not stopped. */
  function Step(pr: Progress, found: Result<Option<OboTerm>>): Result<Progress> {
    match found
    case Err(e) => if e.JsonParseException? then Ok(Progress(pr.terms, true)) else Err(e)
    case Ok(_) => Ok(Progress(pr.terms + Added(found), false))
  }

  /** The term a node's outcome adds: one when it gives a term, none otherwise. */
  function Added(found: Result<Option<OboTerm>>): seq<OboTerm> {
    match found
    case Ok(Some(t)) => [t]
    case _ => []
  }

  /** The terms of the nodes that give one, in node order. */
  function KeptTerms(nodes: seq<Json>, node: Json -> Result<Option<OboTerm>>): seq<OboTerm> {
    if |nodes| == 0 then []
    else
      KeptTerms(nodes[..|nodes| - 1], node) + Added(node(nodes[|nodes| - 1]))
  }

  /** One more node, while the loop has not stopped: what that node does to the progress. */
  lemma IngestedStep(nodes: seq<Json>, node: Json -> Result<Option<OboTerm>>, k: nat)
    requires k < |nodes|
    requires Ingested(nodes[..k], node).Ok? && !Ingested(nodes[..k], node).value.stopped
    ensures Ingested(nodes[..k + 1], node) == Step(Ingested(nodes[..k], node).value, node(nodes[k]))
  {
    assert nodes[..k + 1][..k] == nodes[..k];
  }

  /**
   * The outcome of node k, after k nodes that neither failed nor stopped
   * the loop: a JsonParseException ends the loop with the terms so far,
   * another failure is the failure of the whole loop, and otherwise the
   * loop goes on with the node's term added.
   */
  lemma IngestedAdvance(nodes: seq<Json>, node: Json -> Result<Option<OboTerm>>, k: nat, kept: seq<OboTerm>)
    requires k < |nodes| && Ingested(nodes[..k], node) == Ok(Progress(kept, false))
    ensures node(nodes[k]).Err? && node(nodes[k]).error.JsonParseException? ==>
      Ingested(nodes, node) == Ok(Progress(kept, true))
    ensures node(nodes[k]).Err? && !node(nodes[k]).error.JsonParseException? ==>
      Ingested(nodes, node) == Err(node(nodes[k]).error)
    ensures node(nodes[k]).Ok? ==>
      Ingested(nodes[..k + 1], node) == Ok(Progress(kept + Added(node(nodes[k])), false))
  {
    IngestedStep(nodes, node, k);
    if node(nodes[k]).Err? {
      if node(nodes[k]).error.JsonParseException? {
        IngestedStaysStopped(nodes, node, k + 1);
      } else {
        IngestedFailsFrom(nodes, node, k + 1);
      }
    }
  }

  /** Every term kept comes from a node that gives it. */
  lemma {:induction false} KeptTermsFromNodes(nodes: seq<Json>, node: Json -> Result<Option<OboTerm>>)
    ensures forall t :: t in KeptTerms(nodes, node) ==> exists k :: 0 <= k < |nodes| && node(nodes[k]) == Ok(Some(t))
  {
    if |nodes| > 0 {
      var n := |nodes| - 1;
      KeptTermsFromNodes(nodes[..n], node);
      assert forall k :: 0 <= k < n ==> nodes[..n][k] == nodes[k];
    }
  }

  /** When no node fails, the loop runs to the end and adds the terms of all nodes that give one. */
  lemma {:induction false} IngestedWithoutFailure(nodes: seq<Json>, node: Json -> Result<Option<OboTerm>>)
    requires forall x :: x in nodes ==> node(x).Ok?
    ensures Ingested(nodes, node) == Ok(Progress(KeptTerms(nodes, node), false))
  {
    if |nodes| > 0 {
      var n := |nodes| - 1;
      var front := nodes[..n];
      assert forall x :: x in front ==> x in nodes;
      IngestedWithoutFailure(front, node);
      assert node(nodes[n]).Ok?;
      assert Ingested(nodes, node) == Step(Ingested(front, node).value, node(nodes[n]));
    }
  }

  /** Once a node has stopped the loop, the nodes after it change nothing. */
  lemma {:induction false} IngestedStaysStopped(nodes: seq<Json>, node: Json -> Result<Option<OboTerm>>, i: nat)
    requires i <= |nodes|
    requires Ingested(nodes[..i], node).Ok? && Ingested(nodes[..i], node).value.stopped
    ensures Ingested(nodes, node) == Ingested(nodes[..i], node)
    decreases |nodes| - i
  {
    if i < |nodes| {
      assert nodes[..i + 1][..i] == nodes[..i];
      IngestedStaysStopped(nodes, node, i + 1);
    } else {
      assert nodes[..i] == nodes;
    }
  }

  /** A failure of the node loop over the first i nodes is the failure of the whole loop. */
  lemma {:induction false} IngestedFailsFrom(nodes: seq<Json>, node: Json -> Result<Option<OboTerm>>, i: nat)
    requires i <= |nodes| && Ingested(nodes[..i], node).Err?
    ensures Ingested(nodes, node) == Ingested(nodes[..i], node)
    decreases |nodes| - i
  {
    if i < |nodes| {
      assert nodes[..i + 1][..i] == nodes[..i];
      IngestedFailsFrom(nodes, node, i + 1);
    } else {
      assert nodes[..i] == nodes;
    }
  }

  /**
   * A JsonParseException at node i, after nodes that do not fail, leaves
   * exactly the terms of the nodes before i: node i and the nodes after it
   * add nothing.
   */
  lemma IngestedStopsAt(nodes: seq<Json>, node: Json -> Result<Option<OboTerm>>, i: nat)
    requires i < |nodes|
    requires forall k :: 0 <= k < i ==> node(nodes[k]).Ok?
    requires node(nodes[i]).Err? && node(nodes[i]).error.JsonParseException?
    ensures Ingested(nodes, node) == Ok(Progress(KeptTerms(nodes[..i], node), true))
  {
    var front := nodes[..i];
    assert forall x :: x in front ==> node(x).Ok? by {
      forall x | x in front ensures node(x).Ok? {
        var k :| 0 <= k < i && front[k] == x;
        assert nodes[k] == x;
      }
    }
    IngestedWithoutFailure(front, node);
    IngestedAdvance(nodes, node, i, KeptTerms(front, node));
  }

  // ------------------------------------------------------------ the parser

  class JsonOboParser {
    /** term_list_: the terms added, in the order of their nodes. */
    var termList: seq<OboTerm>

    constructor ()
      ensures termList == []
    {
      termList := [];
    }

    /**
     * JsonOboParser::add_node: appends the node's term when it gives one,
     * and nothing otherwise; r says whether a term was added, or how the
     * node failed.
     */
    method AddNode(val: Json) returns (r: Result<bool>)
      modifies this
      ensures r.Err? <==> NodeTerm(val).Err?
      ensures r.Err? ==> r.error == NodeTerm(val).error
      ensures r.Ok? ==> (r.value <==> NodeTerm(val).value.Some?)
      ensures termList == old(termList) + Added(NodeTerm(val))
    {
      var found := NodeTermOf(val);
      match found
      case Err(e) =>
        return Err(e);
      case Ok(None) =>
        return Ok(false);
      case Ok(Some(t)) =>
        termList := termList + [t];
        return Ok(true);
    }

    /**
     * The node loop of the constructor: add_node on each node in array
     * order inside a try block that catches JsonParseException.
     */
    method AddNodes(nodes: seq<Json>) returns (r: Result<bool>)
      modifies this
      ensures Ingested(nodes, NodeTerm).Err? <==> r.Err?
      ensures r.Err? ==> r.error == Ingested(nodes, NodeTerm).error
      ensures r.Ok? ==> (r.value == Ingested(nodes, NodeTerm).value.stopped
                         && termList == old(termList) + Ingested(nodes, NodeTerm).value.terms)
    {
      ghost var start := termList;
      ghost var kept: seq<OboTerm> := [];
      var k := 0;
      while k < |nodes|
        invariant 0 <= k <= |nodes|
        invariant Ingested(nodes[..k], NodeTerm) == Ok(Progress(kept, false))
        invariant termList == start + kept
      {
        IngestedAdvance(nodes, NodeTerm, k, kept);
        var added := AddNode(nodes[k]);
        if added.Err? {
          if added.error.JsonParseException? {
            return Ok(true);
          }
          return Err(added.error);
        }
        kept := kept + Added(NodeTerm(nodes[k]));
        k := k + 1;
      }
      assert nodes[..k] == nodes;
      r := Ok(false);
    }

    /**
     * The constructor's walk of the document down to its nodes:
     * "graphs" must be a non-empty array whose first element is an object
     * with a "nodes" array, or the program exits with EXIT_FAILURE;
     * reading a member that is missing is not defined. r is the result of
     * the node loop.
     */
    method ReadNodes(doc: Json) returns (r: Result<bool>)
      modifies this
      ensures DocumentNodes(doc).Err? ==> r == Err(DocumentNodes(doc).error) && termList == old(termList)
      ensures DocumentNodes(doc).Ok? ==>
        var ing := Ingested(DocumentNodes(doc).value, NodeTerm);
        (ing.Err? <==> r.Err?)
        && (r.Err? ==> r.error == ing.error)
        && (r.Ok? ==> r.value == ing.value.stopped && termList == old(termList) + ing.value.terms)
    {
      var nodes := DocumentNodes(doc);
      if nodes.Err? {
        return Err(nodes.error);
      }
      r := AddNodes(nodes.value);
    }
  }

  /** add_node computed by statements: the checks in source order, then the meta object. */
  method NodeTermOf(val: Json) returns (r: Result<Option<OboTerm>>)
    ensures r == NodeTerm(val)
  {
    if !val.JObject? || !HasMember(val, "type") {
      return Ok(None);
    }
    var ty := StringMember(val, "type");
    if ty.Err? {
      return Err(ty.error);
    }
    if ty.value != "CLASS" || !HasMember(val, "id") {
      return Ok(None);
    }
    var raw := StringMember(val, "id");
    if raw.Err? {
      return Err(raw.error);
    }
    var id := NodeId(raw.value);
    if !HasMember(val, "lbl") {
      return Ok(None);
    }
    var name := StringMember(val, "lbl");
    if name.Err? {
      return Err(name.error);
    }
    if !HasMember(val, "meta") || !Member(val, "meta").value.JObject? {
      return Ok(None);
    }
    var term := ApplyMeta(OboTerm(id, name.value, "", [], [], []), Member(val, "meta").value);
    if term.Err? {
      return Err(term.error);
    }
    r := Ok(Some(term.value));
  }

  /** The meta object's part of add_node: the definition, then the meta xrefs and property values. */
  method ApplyMeta(t: OboTerm, meta: Json) returns (r: Result<OboTerm>)
    requires meta.JObject?
    ensures r == MetaTerm(t, meta)
  {
    if !HasMember(meta, "definition") {
      return Ok(t);
    }
    var def := Member(meta, "definition").value;
    if !def.JObject? {
      return Err(UndefinedBehaviour("FindMember on a definition that is not an object"));
    }
    var term := t;
    if HasMember(def, "val") {
      var d := GetString(Member(def, "val").value);
      if d.Err? {
        return Err(d.error);
      }
      term := term.(definition := d.value);
    }
    if HasMember(def, "xrefs") {
      var x := Member(def, "xrefs").value;
      if !x.JArray? {
        return Err(Exit(EXIT_FAILURE));
      }
      for k := 0 to |x.items|
        invariant term.definitionXrefs == t.definitionXrefs + x.items[..k]
        invariant term == DefinitionTerm(t, def).value.(definitionXrefs := term.definitionXrefs)
      {
        assert x.items[..k + 1] == x.items[..k] + [x.items[k]];
        term := term.(definitionXrefs := term.definitionXrefs + [x.items[k]]);
      }
      assert x.items[..|x.items|] == x.items;
    }
    assert Ok(term) == DefinitionTerm(t, def);
    r := ApplyMetaXrefs(term, meta);
  }

  /** The meta xrefs loop and, nested in it, the property value loop. */
  method ApplyMetaXrefs(t: OboTerm, meta: Json) returns (r: Result<OboTerm>)
    requires meta.JObject?
    ensures r == MetaXrefsTerm(t, meta)
  {
    if !HasMember(meta, "xrefs") {
      return Ok(t);
    }
    var x := Member(meta, "xrefs").value;
    if !x.JArray? {
      return Err(JsonParseException("Term Xrefs not array"));
    }
    var vals := CollectXrefVals(x.items);
    if vals.Err? {
      return Err(vals.error);
    }
    var term := t.(termXrefs := t.termXrefs + vals.value);
    if HasMember(meta, "basicPropertyValues") {
      var pv := Member(meta, "basicPropertyValues").value;
      if !pv.JArray? {
        return Err(JsonParseException("Term property values not array"));
      }
      var values := t.propertyValues;
      for k := 0 to |pv.items|
        invariant values == t.propertyValues + pv.items[..k]
      {
        assert pv.items[..k + 1] == pv.items[..k] + [pv.items[k]];
        values := values + [pv.items[k]];
      }
      assert pv.items[..|pv.items|] == pv.items;
      term := term.(propertyValues := values);
    }
    r := Ok(term);
  }

  /** The loop over the meta xrefs: each element's "val", if it has one. */
  method CollectXrefVals(items: seq<Json>) returns (r: Result<seq<Json>>)
    ensures r == XrefVals(items)
  {
    var vals := [];
    for k := 0 to |items|
      invariant XrefVals(items[..k]) == Ok(vals)
    {
      assert items[..k + 1][..k] == items[..k];
      var e := items[k];
      if !e.JObject? {
        XrefValsFailurePersists(items, k + 1);
        return Err(UndefinedBehaviour("FindMember on an xref that is not an object"));
      }
      if HasMember(e, "val") {
        vals := vals + [Member(e, "val").value];
      }
    }
    assert items[..|items|] == items;
    r := Ok(vals);
  }

  /** A failure among the first i xrefs is the failure of the whole list. */
  lemma {:induction false} XrefValsFailurePersists(items: seq<Json>, i: nat)
    requires i <= |items| && XrefVals(items[..i]).Err?
    ensures XrefVals(items) == XrefVals(items[..i])
    decreases |items| - i
  {
    if i < |items| {
      assert items[..i + 1][..i] == items[..i];
      XrefValsFailurePersists(items, i + 1);
    } else {
      assert items[..i] == items;
    }
  }

  /**
   * The constructor's way down to the nodes: d["graphs"] must be an array
   * of at least one element, whose first element is an object whose
   * "nodes" is an array. A member read with operator[] that is missing is
   * not defined.
   */
  function DocumentNodes(doc: Json): (r: Result<seq<Json>>)
    ensures r.Ok? ==> doc.JObject? && HasMember(doc, "graphs")
  {
    if !doc.JObject? || !HasMember(doc, "graphs") then Err(UndefinedBehaviour("operator[] on a missing member"))
    else
      var a := Member(doc, "graphs").value;
      if !a.JArray? || |a.items| < 1 || !a.items[0].JObject? then Err(Exit(EXIT_FAILURE))
      else if !HasMember(a.items[0], "nodes") then Err(UndefinedBehaviour("operator[] on a missing member"))
      else
        var nodes := Member(a.items[0], "nodes").value;
        if !nodes.JArray? then Err(Exit(EXIT_FAILURE))
        else Ok(nodes.items)
  }

  /** The nodes are read only from a document with a non-empty "graphs" array whose first element holds a "nodes" array. */
  lemma DocumentNodesMeaning(doc: Json)
    ensures DocumentNodes(doc).Ok? <==>
      doc.JObject? && HasMember(doc, "graphs")
      && Member(doc, "graphs").value.JArray? && |Member(doc, "graphs").value.items| >= 1
      && HasMember(Member(doc, "graphs").value.items[0], "nodes")
      && Member(Member(doc, "graphs").value.items[0], "nodes").value.JArray?
    ensures DocumentNodes(doc).Ok? ==>
      DocumentNodes(doc).value == Member(Member(doc, "graphs").value.items[0], "nodes").value.items
  {
  }
}
