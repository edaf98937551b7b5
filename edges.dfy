/** Typed ontology edges, the edge-type registry and the order edges are sorted in. */
module Edges {
  import opened Wrappers
  import opened Strings
  import opened TermIds
  import opened Json

  /** The relations of the ontologies, plus the reverse of is_a added when the graph is built. */
  datatype EdgeType =
    | IS_A
    | DISEASE_HAS_FEATURE
    | DISEASE_HAS_BASIS_IN_DISRUPTION_OF
    | DISEASE_HAS_BASIS_IN_DYSFUNCTION_OF
    | DISEASE_HAS_BASIS_IN_FEATURE
    | DISEASE_HAS_INFLAMMATION_SITE
    | DISEASE_HAS_LOCATION
    | DISEASE_HAS_MAJOR_FEATURE
    | DISEASE_CAUSES_FEATURE
    | DISEASE_RESPONDS_TO
    | DISEASE_SHARES_FEATURES_OF
    | DISEASE_HAS_BASIS_IN_DEVELOPMENT_OF
    | HAS_MODIFIER
    | REALIZED_IN_RESPONSE_TO
    | REALIZED_IN_RESPONSE_TO_STIMULUS
    | TRANSMITTED_BY
    | DISEASES_CAUSES_DISRUPTION_OF
    | DISEASE_ARISES_FROM_STRUCTURE
    | PREDISPOSES_TOWARDS
    | REALIZED_IN
    | IS_A_INVERSE

  datatype Edge = Edge(source: TermId, etype: EdgeType, dest: TermId)

  /** Edge::edgetype_registry_: the predicate names of the OBO graph and their types. */
  const Registry: map<string, EdgeType> := map[
    "is_a" := IS_A,
    "RO_0004020" := DISEASE_HAS_BASIS_IN_DYSFUNCTION_OF,
    "RO_0004021" := DISEASE_HAS_BASIS_IN_DISRUPTION_OF,
    "RO_0004022" := DISEASE_HAS_BASIS_IN_FEATURE,
    "RO_0004026" := DISEASE_HAS_LOCATION,
    "RO_0009501" := REALIZED_IN_RESPONSE_TO,
    "RO_0004027" := DISEASE_HAS_INFLAMMATION_SITE,
    "RO_0004028" := REALIZED_IN_RESPONSE_TO_STIMULUS,
    "RO_0004029" := DISEASE_HAS_FEATURE,
    "RO_0002573" := HAS_MODIFIER,
    "RO_0002451" := TRANSMITTED_BY,
    "RO_0004024" := DISEASES_CAUSES_DISRUPTION_OF,
    "RO_0004030" := DISEASE_ARISES_FROM_STRUCTURE,
    "mondo#predisposes_towards" := PREDISPOSES_TOWARDS,
    "mondo#disease_has_major_feature" := DISEASE_HAS_MAJOR_FEATURE,
    "mondo#disease_causes_feature" := DISEASE_CAUSES_FEATURE,
    "mondo#disease_responds_to" := DISEASE_RESPONDS_TO,
    "mondo#disease_shares_features_of" := DISEASE_SHARES_FEATURES_OF,
    "mondo#disease_has_basis_in_development_of" := DISEASE_HAS_BASIS_IN_DEVELOPMENT_OF,
    "BFO_0000054" := REALIZED_IN
  ]

  /** Edge::string_to_edgetype: the registered type, or a thrown message. */
  function StringToEdgeType(s: string): (r: Result<EdgeType>)
    ensures s in Registry <==> r.Ok?
    ensures r.Ok? ==> r.value != IS_A_INVERSE
    ensures r.Err? ==> r.error == StringThrown("Unrecognized edgetype:" + s)
  {
    if s in Registry then Ok(Registry[s]) else Err(StringThrown("Unrecognized edgetype:" + s))
  }

  /** The registry key naming each type; IS_A_INVERSE has none. */
  function KeyOf(t: EdgeType): (k: Option<string>)
    ensures k.None? <==> t == IS_A_INVERSE
  {
    match t
    case IS_A => Some("is_a")
    case DISEASE_HAS_BASIS_IN_DYSFUNCTION_OF => Some("RO_0004020")
    case DISEASE_HAS_BASIS_IN_DISRUPTION_OF => Some("RO_0004021")
    case DISEASE_HAS_BASIS_IN_FEATURE => Some("RO_0004022")
    case DISEASE_HAS_LOCATION => Some("RO_0004026")
    case REALIZED_IN_RESPONSE_TO => Some("RO_0009501")
    case DISEASE_HAS_INFLAMMATION_SITE => Some("RO_0004027")
    case REALIZED_IN_RESPONSE_TO_STIMULUS => Some("RO_0004028")
    case DISEASE_HAS_FEATURE => Some("RO_0004029")
    case HAS_MODIFIER => Some("RO_0002573")
    case TRANSMITTED_BY => Some("RO_0002451")
    case DISEASES_CAUSES_DISRUPTION_OF => Some("RO_0004024")
    case DISEASE_ARISES_FROM_STRUCTURE => Some("RO_0004030")
    case PREDISPOSES_TOWARDS => Some("mondo#predisposes_towards")
    case DISEASE_HAS_MAJOR_FEATURE => Some("mondo#disease_has_major_feature")
    case DISEASE_CAUSES_FEATURE => Some("mondo#disease_causes_feature")
    case DISEASE_RESPONDS_TO => Some("mondo#disease_responds_to")
    case DISEASE_SHARES_FEATURES_OF => Some("mondo#disease_shares_features_of")
    case DISEASE_HAS_BASIS_IN_DEVELOPMENT_OF => Some("mondo#disease_has_basis_in_development_of")
    case REALIZED_IN => Some("BFO_0000054")
    case IS_A_INVERSE => None
  }

  /**
   * The registry is one-to-one and onto the types other than IS_A_INVERSE:
   * every such type has exactly one key, and looking that key up gives the type back.
   */
  lemma RegistryIsBijective(t: EdgeType, s: string)
    ensures t != IS_A_INVERSE ==> StringToEdgeType(KeyOf(t).value) == Ok(t)
    ensures s in Registry ==> KeyOf(Registry[s]) == Some(s)
  {
    if t != IS_A_INVERSE { KeyOfIsRegistered(t); }
    if s in Registry { RegisteredKeyOf(s); }
  }

  lemma KeyOfIsRegistered(t: EdgeType)
    requires t != IS_A_INVERSE
    ensures KeyOf(t).value in Registry && Registry[KeyOf(t).value] == t
  {
    if t == IS_A
        || t == DISEASE_HAS_BASIS_IN_DYSFUNCTION_OF
        || t == DISEASE_HAS_BASIS_IN_DISRUPTION_OF
        || t == DISEASE_HAS_BASIS_IN_FEATURE
        || t == DISEASE_HAS_LOCATION {
      KeyOfIsRegisteredIn1(t);
    } else if t == REALIZED_IN_RESPONSE_TO
        || t == DISEASE_HAS_INFLAMMATION_SITE
        || t == REALIZED_IN_RESPONSE_TO_STIMULUS
        || t == DISEASE_HAS_FEATURE
        || t == HAS_MODIFIER {
      KeyOfIsRegisteredIn2(t);
    } else if t == TRANSMITTED_BY
        || t == DISEASES_CAUSES_DISRUPTION_OF
        || t == DISEASE_ARISES_FROM_STRUCTURE
        || t == PREDISPOSES_TOWARDS
        || t == DISEASE_HAS_MAJOR_FEATURE {
      KeyOfIsRegisteredIn3(t);
    } else {
      KeyOfIsRegisteredIn4(t);
    }
  }

  /** KeyOfIsRegistered for the registry entries 1 to 5. */
  lemma KeyOfIsRegisteredIn1(t: EdgeType)
    requires t == IS_A
      || t == DISEASE_HAS_BASIS_IN_DYSFUNCTION_OF
      || t == DISEASE_HAS_BASIS_IN_DISRUPTION_OF
      || t == DISEASE_HAS_BASIS_IN_FEATURE
      || t == DISEASE_HAS_LOCATION
    ensures KeyOf(t).value in Registry && Registry[KeyOf(t).value] == t
  {
  }

  /** KeyOfIsRegistered for the registry entries 6 to 10. */
  lemma KeyOfIsRegisteredIn2(t: EdgeType)
    requires t == REALIZED_IN_RESPONSE_TO
      || t == DISEASE_HAS_INFLAMMATION_SITE
      || t == REALIZED_IN_RESPONSE_TO_STIMULUS
      || t == DISEASE_HAS_FEATURE
      || t == HAS_MODIFIER
    ensures KeyOf(t).value in Registry && Registry[KeyOf(t).value] == t
  {
  }

  /** KeyOfIsRegistered for the registry entries 11 to 15. */
  lemma KeyOfIsRegisteredIn3(t: EdgeType)
    requires t == TRANSMITTED_BY
      || t == DISEASES_CAUSES_DISRUPTION_OF
      || t == DISEASE_ARISES_FROM_STRUCTURE
      || t == PREDISPOSES_TOWARDS
      || t == DISEASE_HAS_MAJOR_FEATURE
    ensures KeyOf(t).value in Registry && Registry[KeyOf(t).value] == t
  {
  }

  /** KeyOfIsRegistered for the registry entries 16 to 20. */
  lemma KeyOfIsRegisteredIn4(t: EdgeType)
    requires t == DISEASE_CAUSES_FEATURE
      || t == DISEASE_RESPONDS_TO
      || t == DISEASE_SHARES_FEATURES_OF
      || t == DISEASE_HAS_BASIS_IN_DEVELOPMENT_OF
      || t == REALIZED_IN
    ensures KeyOf(t).value in Registry && Registry[KeyOf(t).value] == t
  {
  }

  lemma RegisteredKeyOf(s: string)
    requires s in Registry
    ensures KeyOf(Registry[s]) == Some(s)
  {
  }

  /** Edge::get_is_a_inverse: the same two terms the other way round, typed IS_A_INVERSE. */
  function IsAInverse(e: Edge): (r: Edge)
    ensures r.source == e.dest && r.dest == e.source && r.etype == IS_A_INVERSE
  {
    Edge(e.dest, IS_A_INVERSE, e.source)
  }

  /** Edge::operator<: by source, then by destination; the type plays no part. */
  predicate EdgeLess(a: Edge, b: Edge) {
    if Equal(a.source, b.source) then Less(a.dest, b.dest) else Less(a.source, b.source)
  }

  /** Edges are ordered exactly as the (source, destination) pairs of their values are. */
  lemma EdgeLessIsStrictWeakOrder(a: Edge, b: Edge, c: Edge)
    ensures !EdgeLess(a, a)
    ensures EdgeLess(a, b) ==> !EdgeLess(b, a)
    ensures EdgeLess(a, b) && EdgeLess(b, c) ==> EdgeLess(a, c)
    ensures !EdgeLess(a, b) && !EdgeLess(b, a) <==> Equal(a.source, b.source) && Equal(a.dest, b.dest)
  {
    LessIsStrictTotalOrder(a.source, b.source, c.source);
    LessIsStrictTotalOrder(a.dest, b.dest, c.dest);
    if EdgeLess(a, b) && EdgeLess(b, c) {
      if Equal(a.source, b.source) && !Equal(b.source, c.source) {
        assert Less(b.source, c.source);
      }
    }
  }

  /** An object whose "sub" and "obj" are parsable URLs and whose "pred" ends in a registered name. */
  predicate EdgeJson(j: Json) {
    && j.JObject? && HasMember(j, "sub") && HasMember(j, "obj") && HasMember(j, "pred")
    && Member(j, "sub").value.JString? && Member(j, "obj").value.JString?
    && Member(j, "pred").value.JString?
    && FromUrl(Member(j, "sub").value.str).Ok?
    && FromUrl(Member(j, "obj").value.str).Ok?
    && AfterLast(Member(j, "pred").value.str, '/') in Registry
  }

  /** Edge::of: an edge from an OBO-graph JSON edge object. */
  function EdgeOf(j: Json): (r: Result<Edge>)
    ensures r.Ok? ==> j.JObject? && HasMember(j, "sub") && HasMember(j, "obj") && HasMember(j, "pred")
    ensures r.Ok? <==> EdgeJson(j)
    ensures r.Ok? ==>
      && Ok(r.value.source) == FromUrl(Member(j, "sub").value.str)
      && Ok(r.value.dest) == FromUrl(Member(j, "obj").value.str)
      && Ok(r.value.etype) == StringToEdgeType(AfterLast(Member(j, "pred").value.str, '/'))
    ensures !j.JObject? ==> r == Err(JsonParseException("Edge element not JSON object"))
    ensures j.JObject? && !HasMember(j, "sub") ==>
      r == Err(JsonParseException("Edge did not contain 'sub' element"))
  {
    if !j.JObject? then Err(JsonParseException("Edge element not JSON object"))
    else match Member(j, "sub")
    case None => Err(JsonParseException("Edge did not contain 'sub' element"))
    case Some(sj) =>
      match GetString(sj)
      case Err(e) => Err(e)
      case Ok(sub) =>
        match FromUrl(sub)
        case Err(e) => Err(e)
        case Ok(subj) =>
          match Member(j, "obj")
          case None => Err(JsonParseException("Edge did not contain 'obj' element"))
          case Some(oj) =>
            match GetString(oj)
            case Err(e) => Err(e)
            case Ok(o) =>
              match FromUrl(o)
              case Err(e) => Err(e)
              case Ok(obj) =>
                match Member(j, "pred")
                case None => Err(JsonParseException("Edge did not contain 'pred' element"))
                case Some(pj) =>
                  match GetString(pj)
                  case Err(e) => Err(e)
                  case Ok(pred) =>
                    var etype := AfterLast(pred, '/');
                    if etype in Registry then Ok(Edge(subj, Registry[etype], obj))
                    else Err(JsonParseException("TODO -- finish up.Could not find edge type " + etype))
  }
}
