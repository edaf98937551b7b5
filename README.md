# phenotools, modelled in Dafny

phenotools reads the Human Phenotype Ontology (HPO) from its JSON release into an in-memory graph. The terms are stored in a map, and the edges in compressed-sparse-row (CSR) arrays. On top of that graph the program offers three commands:

- `phenopacket` checks a GA4GH phenopacket, both syntactically and against the ontology (prefixes, redundant ancestor terms);
- `hpo` lists the descendants of a term and counts those created in a date window;
- `annotation` counts the OMIM annotations from `phenotype.hpoa` below a term, and those newer than a date.

Two Python scripts drive the counting commands once per category of a fixed registry of 25 top-level categories. They scrape the `#…` summary lines of the output into a tab-separated report, and turn two term files into the data vectors of an R bar plot.

The project models these parts, one Dafny module per file:

| module | file | models |
|---|---|---|
| Wrappers, Strings, Json | wrappers.dfy, strings.dfy, json.dfy | results and failures; the string, number and split operations of C++ and Python that the sources use; an abstract JSON value |
| TermIds | termids.dfy | `TermId` of the library and of the older parser: `from_string`, `from_url`, prefix and id, order |
| Edges, Properties | edges.dfy, properties.dfy | edge types and their registry, the inverse edge, the edge order; predicates, properties and their registries |
| Csr, Graph | csr.dfy, graph.dfy | the three passes that build the CSR arrays; the stack-based path search over them |
| Ontology | ontology.dfy | the `Term` and `Ontology` classes: adding terms and edges, `get_term`, `exists_path`, the id check of `have_common_ancestor` |
| Phenotools | phenotools.dfy | the `validate` functions of every phenopacket element, as written and as intended |
| Semantic | semantic.dfy | the prefix checks and the redundancy check of the semantic validation |
| JsonObo | jsonobo.dfy | the `JsonOboParser` class: one node of the JSON release to a `Term`, and the node loop |
| HpoAnnotations, Dates | hpoannotation.dfy, dates.dfy | reading `phenotype.hpoa` lines and biocurations; `newer_than`; reading and writing dates |
| HpoCommand, AnnotCommand, PhenotoolsCommand | hpocommand.dfy, annotcommand.dfy, phenotoolscommand.dfy | the three commands and the text they write |
| Categories, CountScript, GgPlot | countscript.dfy, ggplot.dfy | the category registry; the Python count script; the plot script |
| ReadBack | readback.dfy | the text protocol between the commands and the count script: what the script reads back from what a command writes |

Several members come in pairs. A member named `AsWritten…`, or a `corrected: bool` parameter set to false, follows the code as it stands. The partner member follows the evidently intended behaviour. The section "Findings" lists these pairs.

The clock, randomness, file contents and calls into code outside the model are parameters. Examples are `now`, `contents`, `run`, `creation` and `ancestors`.

## Model

| member | source | states |
|---|---|---|
| TermIds.GetPrefix | src/termid.h:27 | the text before the separator, or the whole value when the separator lies past its end (substr clamps the count) |
| TermIds.GetId | src/termid.h:28 | the text after the separator: the last \|value\| - sep - 1 characters |
| TermIds.PrefixColonId | src/termid.h:27-28 | for an id whose separator is a ':', prefix + ":" + id is the value again |
| TermIds.LessIsStrictTotalOrder | lib/termid.cc:99-115 | operator< is irreflexive, asymmetric and transitive, two ids are incomparable exactly when operator== holds, and operator!= is its negation |
| TermIds.Suffix | lib/termid.cc:17-21 | the part after the last '/', which holds no '/' |
| TermIds.FromString | lib/termid.cc:14-49 | a returned id always has a ':' separator; the exception is thrown exactly when the last segment has neither ':' nor '_' and the text mentions none of "hgnc", "ICD10" and "orcid.org/", with the message of line 48 |
| TermIds.FromStringNoColon | lib/termid.cc:23-48 | for a last segment cp without ':': "hgnc" in the text gives TermId{"HGNC:"+cp, 4}; failing that, "ICD10" gives TermId{"ICD10:"+cp, 5}; failing that, the first '_' of cp becomes the ':' separator; failing that, "orcid.org/" gives TermId{"ORCID:"+cp, 5}; otherwise the exception with the message of line 48 |
| TermIds.FromStringColonSegment | lib/termid.cc:17-34 | a last segment holding ':' is parsed as the id itself, whatever precedes the last '/' |
| TermIds.FromStringHgnc | lib/termid.cc:24-26 | without ':' in the last segment, a text mentioning "hgnc" gives HGNC:segment, with prefix "HGNC" and the segment as local id ("…/hgnc/1100" gives HGNC:1100) |
| TermIds.FromStringIcd10 | lib/termid.cc:27-29 | failing that, a text mentioning "ICD10" gives ICD10:segment, with prefix "ICD10" and the segment as local id |
| TermIds.FromStringUnderscoreSegment | lib/termid.cc:36-41 | failing those, the first '_' of the last segment, behind any '/', becomes the ':' separator |
| TermIds.FromStringOrcid | lib/termid.cc:43-47 | failing all of those, a text holding "orcid.org/" gives ORCID:segment, with prefix "ORCID" and the segment as local id |
| TermIds.UnderscoreToColon | lib/termid.cc:36-41 | replacing the first '_' by ':' gives a CURIE whose separator is that position |
| TermIds.Prefixed | lib/termid.cc:24-30 | "PREFIX:" + segment with the separator at the prefix's length is a CURIE whose prefix and id are the two parts |
| TermIds.FromStringOfCurie | lib/termid.cc:22-34 | a text without '/' whose first ':' is at i parses to itself with separator i |
| TermIds.FromStringIdempotent | lib/termid.cc:14-49 | the value of a parsed id parses to the same id |
| TermIds.FromStringUnderscore | lib/termid.cc:36-41 | "HP_0000118" (no ':', '/', hgnc or ICD10) becomes "HP:0000118" with the separator at the first '_' |
| TermIds.FromUrl | lib/termid.cc:51-65 | a URL holding "hgnc/" at i gives TermId{"HGNC:" + the text from i+5, 4}, with prefix "HGNC" and that text as local id; a URL without '/' throws the "Malformed TermId URL" exception; otherwise the result is from_string of the last segment |
| TermIds.FromUrlHasNoOrcidCase | lib/termid.cc:58-64 | the segment from_url hands on has no '/', so a URL without "hgnc/" parses exactly when that segment has ':' or '_' or mentions hgnc or ICD10 |
| TermIds.LegacyFromString | src/termid.cc:11-35 | the older parser: a returned id has a ':' separator; it throws exactly when the segment has neither ':' nor '_' and no character of the text is one of the letters of "orcid.org/" (find_first_of), with the message of line 34 |
| TermIds.LegacyOrcidFallback | src/termid.cc:28-33 | a plain word containing any of the characters of "orcid.org/" becomes ORCID:word |
| TermIds.LegacyOrcidMatchesAnyLetter | src/termid.cc:29 | "bad" becomes ORCID:bad under the older parser while the library parser rejects it |
| TermIds.LegacyAgreesOnCuries | src/termid.cc:11-35 | where the library parser succeeds on a text without hgnc or ICD10, the older one gives the same id |
| TermIds.LegacyFromUrl | src/termid.cc:37-46 | no '/' throws "Malformed TermId URL"; otherwise the older from_string of the last segment |
| Edges.StringToEdgeType | lib/edge.cc:38-46 | the registered type exactly for the keys of edgetype_registry_, never IS_A_INVERSE, else the thrown "Unrecognized edgetype:" message |
| Edges.KeyOf | lib/edge.cc:14-36 | every type except IS_A_INVERSE has a registry key |
| Edges.RegistryIsBijective | lib/edge.cc:14-36 | looking up the key of a type gives the type back, and the key of a registered type is the key it was looked up by |
| Edges.IsAInverse | lib/edge.cc:48-54 | the same two terms the other way round, typed IS_A_INVERSE |
| Edges.EdgeLessIsStrictWeakOrder | lib/edge.cc:92-107 | operator< is a strict weak order whose incomparable pairs have equal source and destination |
| Edges.EdgeOf | lib/edge.cc:56-90 | an edge exactly for an object with "sub", "obj" and "pred" whose URLs parse and whose predicate (after its last '/') is registered; source, destination and type are those parses; a non-object and a missing "sub" give their own exception messages |
| Properties.RegistriesAvoidUnknown | lib/property.cc:11-50 | no name in either predicate registry maps to UNKNOWN, so UNKNOWN signals exactly a missing name |
| Properties.StringToPredicate | lib/property.cc:52-61 | UNKNOWN exactly when the name is not in predicate_registry_ (a warning, never an exception), else the registered predicate |
| Properties.LegacyStringToPredicate | src/property.cc:69-78 | the same over the older registry |
| Properties.LegacyRegistryDiffersOnlyInTaxon | src/property.cc:29-67 | the two registries read every name alike except RO_0002162, which only the library maps (to IN_TAXON) |
| Properties.PredicateValueText | lib/property.cc:64-84 | the printed form starts with the predicate's prefix and ends with the value |
| Properties.PrefixesIdentifyPredicates | lib/property.cc:65-81 | two predicates with the same non-default printed prefix are the same predicate |
| Properties.ApvLabelsTotalAndInjective | lib/property.cc:113-128 | apv_to_label_ has a label for every allowed value and no two values share one |
| Properties.PropertyOf | lib/property.cc:131-140 | Property(apv) keeps apv and takes its label from apv_to_label_ |
| Properties.PropertyOfInjective | lib/property.cc:131-140 | the label of a property determines its allowed value |
| Properties.IdToProperty | lib/property.cc:142-156 | the value registered for the text after the last '/', or the "[WARNING] Unrecognized property: " exception exactly when that text is not registered |
| Properties.IdToPropertyOfUrl | lib/property.cc:145-149 | a URL names the property of its last segment, whatever its base |
| Properties.IdToPropertyOfKey | lib/property.cc:151-155 | a registered key without '/' reads as its registered value |
| Properties.RegistryPairsAgree | lib/property.cc:89-110 | each label and its HP id are registered for the same allowed value |
| Properties.LegacyPropertyText | src/property.cc:133-139 | the older operator<< writes label + "[" + id + "] " and then exactly the values' text, each value followed by "; " |
| Properties.ValuesTextAppend | src/property.cc:135-137 | printing one more value appends exactly its text and "; " |
| Csr.InsertBy | lib/ontology.cc:291-295 | inserting into a list sorted by the (source, destination) key keeps it sorted and adds exactly the one element |
| Csr.SortBy | lib/ontology.cc:291-295 | the std::sort of the edges: the result is sorted by key and is a permutation of the input |
| Csr.PairLeqTotalPreorder | lib/ontology.cc:291-295 | the comparison on (source, destination) pairs is reflexive, total and transitive, so sorting by it is well defined |
| Csr.CountLess | lib/ontology.cc:327-339 | the number of sources below a vertex is at most the number of edges |
| Csr.CountMapCounts | lib/ontology.cc:307-324 | the per-source count map holds exactly the sources that occur, each with its number of occurrences |
| Csr.CountLessStep | lib/ontology.cc:329-338 | moving to the next vertex adds that vertex's edge count to the running offset |
| Csr.CountLessSplits | lib/ontology.cc:327-339 | in sorted sources, an edge lies below vertex v's offset exactly when its source is below v |
| Csr.Offsets | lib/ontology.cc:327-339 | the offset table has one entry per vertex plus one, and entry v counts the edges whose source is below v |
| Csr.OffsetsDelimitBlocks | lib/ontology.cc:327-339 | for sorted sources the offsets start at 0, end at the number of edges, never decrease, and every edge lies inside the block of its own source |
| Graph.PathConcat | lib/ontology.cc:448-483 | two typed paths that meet at a vertex join into one path |
| Graph.ReachesTransitive | lib/ontology.cc:448-483 | reachability along edges of one type is transitive |
| Graph.ReachesFirstStep | lib/ontology.cc:470-479 | every path out of a vertex starts with a slot of that vertex's block whose destination is the goal or reaches it |
| Graph.NoPathToSelf | lib/ontology.cc:466-480 | in a subgraph with no cycle no vertex reaches itself, so the search's stack empties |
| Graph.BlockTargets | lib/ontology.cc:470-479 | the vertices one typed edge away from v are exactly the destinations listed in v's block |
| Graph.PushAll | lib/ontology.cc:470-479 | pushing vertices reached from the start keeps the stack sound and adds what they reach to what the stack covers |
| Graph.PopKeeps | lib/ontology.cc:467-469 | popping the top vertex keeps the rest sound, lowers the termination weight by the vertex's block, and hands its paths to that vertex |
| Graph.ScanEffect | lib/ontology.cc:470-479 | one turn of the search keeps the stack sound, adds the block's weight, and keeps every path to the goal covered when the goal is not among the targets |
| Graph.ScanBlock | lib/ontology.cc:470-479 | the inner loop stops exactly when a typed edge of the block leads to the goal, and otherwise pushes every typed destination in block order |
| Graph.Search | lib/ontology.cc:466-482 | the depth-first search with no visited set ends on a cycle-free subgraph and answers true exactly when the goal is reachable along one or more typed edges |
| Ontology.SynonymOf | lib/ontology.cc:36-50 | a synonym keeps its label and gets the type registered for its predicate, or no type when the predicate is unknown |
| Ontology.SynonymTypesDistinct | lib/ontology.cc:39-46 | the four synonym predicates give four different types |
| Ontology.Term.constructor | lib/ontology.cc:70-71 | a new term has its id and label, empty lists, no definition, and is not obsolete |
| Ontology.Term.AddDefinition | lib/ontology.cc:75-78 | the definition is replaced and nothing else changes |
| Ontology.Term.AddDefinitionXref | lib/ontology.cc:80-83 | the cross-reference goes at the end of the definition cross-references and nothing else changes |
| Ontology.Term.AddTermXref | lib/ontology.h:85 | the cross-reference goes at the end of the term cross-references and nothing else changes |
| Ontology.Term.AddPredicateValue | lib/ontology.cc:89-97 | an alternative-id value is parsed and appended to the alternative ids, a parse failure is reported with the term unchanged, and any other value goes to the property values; never both |
| Ontology.Term.AddSynonym | lib/ontology.cc:99-103 | the synonym built from predicate and label goes at the end of the synonym list |
| Ontology.Term.HasAlternativeIds | lib/ontology.h:94 | true exactly when the term has at least one alternative id |
| Ontology.Term.Obsolete | lib/ontology.h:99 | the term's obsolete flag |
| Ontology.InsertTermFiles | lib/ontology.cc:248-258 | a term is filed under its primary id and all its alternative ids, and keys already present keep their term (map::insert does not overwrite) |
| Ontology.InsertAltsFiles | lib/ontology.cc:254-258 | filing the alternative ids adds exactly those keys, all pointing at the term, and leaves old keys alone |
| Ontology.KeysOf | lib/ontology.cc:244-260 | the key set of a list of terms holds every key of every term |
| Ontology.InsertAllFiles | lib/ontology.cc:244-260 | after the loop the map holds the old keys unchanged plus every key of every term |
| Ontology.InsertAllFirstWins | lib/ontology.cc:244-260 | each key leads to the first term, in input order, filed under it |
| Ontology.InsertAllKeepsFiled | lib/ontology.cc:244-260 | every key of the map leads to a term that carries that key |
| Ontology.TotalIdsCountKeys | lib/ontology.h:153 | total_term_id_count is the number of distinct primary and alternative ids |
| Ontology.IdsPartitionTerms | lib/ontology.cc:249-253 | every term's id goes to exactly one of the current and obsolete lists |
| Ontology.CurrentIdsAll | lib/ontology.cc:262-267 | the current ids account for every term exactly when no term is obsolete |
| Ontology.IndexMap | lib/ontology.cc:268-270 | the numbering gives an index to every id value of the list |
| Ontology.IndexMapLast | lib/ontology.cc:268-270 | each id is numbered with the last position holding its value, which holds that value |
| Ontology.IndexMapFresh | lib/ontology.cc:268-270 | a newly numbered id points at a position holding that id |
| Ontology.EdgeKeyAgreesWithEdgeLess | lib/edge.cc:92-107 | sorting by the (source, destination) key is sorting by Edge's operator< |
| Ontology.Inverses | lib/ontology.cc:278-284 | the added edges are exactly the inverses of the IS_A edges |
| Ontology.CollectInverses | lib/ontology.cc:279-284 | the loop collects the inverse of every IS_A edge, in input order |
| Ontology.SlotsAppend | lib/ontology.cc:345-369 | one more edge adds its source, destination and type when its destination has a vertex number, and nothing otherwise |
| Ontology.SlotsStep | lib/ontology.cc:345-369 | one turn of the fill loop adds the edge's destination, type and IS_A count when the edge is kept |
| Ontology.AppendSlots | lib/ontology.cc:345-369 | the fill loop appends a destination and a type per edge with a numbered destination and counts the IS_A ones |
| Ontology.SlotsShape | lib/ontology.cc:345-369 | the source, destination and type lists have one entry per kept edge and every vertex number is below the vertex count |
| Ontology.SlotSourceOrigin | lib/ontology.cc:345-369 | each filled slot comes from a kept edge of the input |
| Ontology.SlotSourcesSorted | lib/ontology.cc:287-295 | edges sorted by (source, destination) under a numbering that follows id order give non-decreasing source vertices |
| Ontology.SlotsInSourceBlocks | lib/ontology.h:117-119 | every kept edge's slot lies in the block the offsets give its source vertex |
| Ontology.AsWrittenSourcesCount | lib/ontology.cc:307-324 | as written, the first pass counts one source per kept edge and one per edge with an unknown destination |
| Ontology.AsWrittenSourcesBelow | lib/ontology.cc:307-324 | every counted source is a vertex number |
| Ontology.AsWrittenSourcesWithoutDangling | lib/ontology.cc:307-324 | without dangling edges the source's count pass counts exactly the kept edges, so its offsets are the intended ones |
| Ontology.AsWrittenOffsetsEnd | lib/ontology.cc:327-369 | as written, the last offset is the number of filled slots plus the dangling edges, so it passes the end of edge_to_ exactly when some destination is unknown |
| Ontology.AsWrittenOffsetsOverrunEdges | lib/ontology.cc:351-355 | one term with one edge to an unknown term gets offsets [0, 1] and no slot |
| Ontology.AsWrittenAncestorIdCheck | lib/ontology.cc:491-508 | as written, the lookup fails exactly when one of the three ids is unknown, and every failure names t1 |
| Ontology.AncestorIdCheck | lib/ontology.cc:491-508 | the same checks, each failure naming an id that is not known |
| Ontology.AsWrittenAncestorCheckNamesKnownId | lib/ontology.cc:497-501 | with t1 known and t2 not, the as-written message names the known t1, the corrected one names t2 |
| Ontology.Ontology.constructor | lib/ontology.cc:228-235 | the initialisers: id, predicates and properties set, no terms, no edges |
| Ontology.Ontology.SetId | lib/ontology.h:147 | the id is replaced |
| Ontology.Ontology.AddPredicateValue | lib/ontology.cc:218-221 | the value goes at the end of the list and the predicate count grows by one |
| Ontology.Ontology.AddProperty | lib/ontology.cc:223-226 | the property goes at the end of the list and the property count grows by one |
| Ontology.Ontology.AddTermsAndEdges | lib/ontology.cc:236-239 | on an empty ontology, success means no term was obsolete and the terms are built; the destinations and types are those of the kept edges, the offsets those of the source's count pass (corrected false) or of the kept edges (corrected true); the CSR invariant holds exactly when corrected or no edge dangles; the caller's edges come back extended and sorted |
| Ontology.Ontology.AddTermsToEmpty | lib/ontology.cc:241-271 | on an empty ontology the sanity check passes exactly when no input term is obsolete, and then the ids are filed and numbered |
| Ontology.Ontology.AddAllTerms | lib/ontology.cc:241-271 | the map, the obsolete list and the sorted current ids are what the loop files; the exit happens exactly when the current ids do not account for every term; only on success are the ids numbered |
| Ontology.Ontology.FileTerms | lib/ontology.cc:244-260 | the loop files every term and splits the ids into current and obsolete, in input order |
| Ontology.Ontology.FileTerm | lib/ontology.cc:245-259 | one turn files the term under its keys and adds its id to exactly one list |
| Ontology.Ontology.NumberIds | lib/ontology.cc:268-270 | each current id is numbered with its position; sorted ids on an empty table give a consistent numbering |
| Ontology.Ontology.CurrentTermCount | lib/ontology.h:152 | every vertex number is below the count, and the offset table has one entry per vertex plus one |
| Ontology.Ontology.EdgeCount | lib/ontology.h:154 | under the CSR invariant, the number of slots is the last offset and the number of types |
| Ontology.Ontology.IsAEdgeCount | lib/ontology.h:155 | under the CSR invariant, the IS_A counter is the number of IS_A slots and at most the edge count |
| Ontology.Ontology.AddAllEdges | lib/ontology.cc:276-373 | the edges are extended with the IS_A inverses and sorted; the exit happens exactly when some source is unknown, leaving the arrays alone; otherwise destinations, types and the IS_A count are those of the kept edges, and the offsets count every edge with a known source as the source does (corrected false) or only the kept edges (corrected true); a fresh build satisfies the CSR invariant exactly when corrected or no edge has an unknown destination |
| Ontology.Ontology.BuildCsr | lib/ontology.cc:307-369 | the three passes fail exactly on an unknown source and otherwise write the offsets and slots of the kept edges |
| Ontology.Ontology.BuiltGraphValid | lib/ontology.h:117-128 | arrays built from sorted edges over a fresh numbering satisfy the CSR invariant |
| Ontology.Ontology.CountEdgesBySource | lib/ontology.cc:307-324 | the first pass fails exactly on an unknown source and otherwise counts the kept edges per source vertex |
| Ontology.Ontology.AsWrittenCountEdgesBySource | lib/ontology.cc:307-324 | as written, the first pass counts every edge under its source, whether its destination is known or not |
| Ontology.Ontology.AsWrittenBuildCsr | lib/ontology.cc:307-369 | as written, the exit happens exactly when some source is unknown; otherwise the offsets count the dangling edges that the fill pass leaves out, while destinations, types and the IS_A count are those of the kept edges |
| Ontology.Ontology.FillOffsets | lib/ontology.cc:327-339 | offset v is the number of counted edges whose source vertex is below v |
| Ontology.Ontology.FillEdges | lib/ontology.cc:343-369 | each edge whose destination has a vertex number fills the next slot, and the IS_A counter counts the IS_A ones |
| Ontology.Ontology.TermsIndexedMonotone | lib/ontology.cc:261-270 | numbering the sorted ids follows the order of their values |
| Ontology.Ontology.GetTerm | lib/ontology.cc:375-383 | the term filed under the id, if any, and that term carries the id |
| Ontology.Ontology.GetIsaParents | lib/ontology.cc:385-404 | nothing for an unknown id; otherwise the ids one IS_A edge away, in block order; a term is a parent exactly when an IS_A edge leads to it |
| Ontology.Ontology.ParentsAreTargets | lib/ontology.cc:395-402 | the list built from the block's IS_A targets holds exactly the terms an IS_A edge leads to |
| Ontology.Ontology.ExistsPath | lib/ontology.cc:448-483 | false when either id is unknown; otherwise true exactly when dest is reachable from source along one or more edges of the type |
| Ontology.Ontology.ExistsIsaPath | lib/ontology.cc:410-445 | the same along IS_A edges |
| Ontology.NewOntology | lib/ontology.cc:228-239 | the constructor either exits with status 1 or returns a fresh ontology with its metadata and built terms, having seen no obsolete term; its offsets are the source's (corrected false) or those of the kept edges (corrected true), and it satisfies the CSR invariant exactly when corrected or no edge dangles |
| Phenotools.Message | lib/phenotools.cc:36-98 | the custom message when one was given, otherwise the fixed text of the cause |
| Phenotools.Factories | lib/phenotools.h:109-123 | createError gives an error that is not a warning and createWarning the reverse, both keep the cause, and the one-argument forms fall back to the cause's text |
| Phenotools.AppendValidations | lib/phenotools.cc:100-105 | the validate(vector&) overloads append the element's findings after those already collected, which stay unchanged |
| Phenotools.AppendedIsJoined | lib/phenotools.cc:100-105 | what such an overload leaves is the collected list followed by the new findings |
| Phenotools.AllFindingsStep | lib/phenotools.cc:1139-1141 | one more turn of a loop over elements appends the next element's findings |
| Phenotools.AllFindingsMembers | lib/phenotools.cc:1139-1141 | a finding is reported for a list exactly when some element reports it |
| Phenotools.AllFindingsMeaning | lib/phenotools.cc:1139-1141 | membership as above, and a list reports nothing exactly when no element does |
| Phenotools.AllFindingsEmpty | lib/phenotools.cc:1139-1141 | a list reports nothing exactly when no element does |
| Phenotools.AllFindingsPart | lib/phenotools.cc:1139-1141 | facts about each element's causes and emptiness carry over to the findings of the whole list |
| Phenotools.ValidateOntologyClass | lib/phenotools.cc:135-154 | an ERROR exactly for an empty id, first; a WARNING naming the id exactly for a non-empty id without ':'; an ERROR exactly for an empty label, last; nothing exactly for a well-formed class |
| Phenotools.OntologyClassPrefix | lib/phenotools.cc:124-132 | "N/A" when the id has no ':', otherwise a text without ':' that, followed by ':', starts the id |
| Phenotools.CheckTerm | lib/phenotools.cc:1364-1371 | a missing term gives the given finding alone; a present term gives only its own findings; nothing exactly when the term is present and well formed |
| Phenotools.TermListFindings | lib/phenotools.cc:1414-1416 | the findings of a list of terms are term findings, and none exactly when every term is well formed |
| Phenotools.ValidateTermList | lib/phenotools.cc:1414-1416 | the loop handing each term to validate(vector&) yields the list's findings |
| Phenotools.CheckTerms | lib/phenotools.cc:1411-1417 | an empty list gives the given finding alone; otherwise only term findings; nothing exactly when the list is non-empty and every term is well formed |
| Phenotools.ValidateAge | lib/phenotools.cc:181-188 | one AGE_ELEMENT_UNINITIALIZED ERROR exactly when the age text is empty, nothing otherwise |
| Phenotools.ValidateAgeRange | lib/phenotools.cc:206-218 | one such ERROR for each empty end of the range |
| Phenotools.CheckAge | lib/phenotools.cc:1383-1395 | neither age nor range gives the missing-age WARNING alone; otherwise only age ERRORs, present exactly when the age, or else the range, has an empty text |
| Phenotools.ValidateIndividual | lib/phenotools.cc:316-346 | missing id, missing age, unknown sex and empty age texts are each reported exactly when they hold, the id ERROR first and the sex WARNING last, and nothing exactly for a well-formed individual |
| Phenotools.IndividualParts | lib/phenotools.cc:316-346 | the id, age and sex parts, joined in order, give the same properties |
| Phenotools.ValidateExternalReference | lib/phenotools.cc:358-367 | one ERROR exactly when the id is empty |
| Phenotools.ValidateEvidence | lib/phenotools.cc:416-436 | a missing code and a reference with an empty id are each reported exactly when they hold; nothing exactly for well-formed evidence |
| Phenotools.EvidenceListFindings | lib/phenotools.cc:526-531 | a missing code is reported exactly when some evidence lacks one; nothing exactly when all evidence is well formed |
| Phenotools.ValidateEvidenceList | lib/phenotools.cc:526-531 | the evidence loop yields the list's findings |
| Phenotools.FeatureFindings | lib/phenotools.cc:508-534 | with the missing-evidence WARNING pushed: a missing type, missing evidence and evidence without code are each reported exactly when they hold; nothing exactly for a well-formed feature |
| Phenotools.AsWrittenFeatureFindings | lib/phenotools.cc:508-534 | as written: the same, except that missing evidence is never reported |
| Phenotools.FeatureParts | lib/phenotools.cc:508-534 | the type part and the evidence part, joined in order, give those properties, with or without the WARNING |
| Phenotools.ValidateFeature | lib/phenotools.cc:508-534 | the feature check with its evidence loop yields the intended findings |
| Phenotools.AsWrittenValidateFeature | lib/phenotools.cc:508-534 | the feature check as written yields the as-written findings |
| Phenotools.AsWrittenFeatureMissesEvidence | lib/phenotools.cc:523-525 | a typed feature without evidence passes as written and gets the WARNING as intended |
| Phenotools.FeatureListFindings | lib/phenotools.cc:1139-1141 | a missing type or missing evidence is reported exactly when some feature lacks it; nothing exactly when every feature is well formed |
| Phenotools.FeatureListFlags | lib/phenotools.cc:1139-1141 | the same two iffs, stated on the list's joined findings |
| Phenotools.AsWrittenFeatureListFindings | lib/phenotools.cc:1139-1141 | as written, a missing type is reported exactly when some feature lacks one, and missing evidence never |
| Phenotools.ValidateFeatureList | lib/phenotools.cc:1139-1141 | the loop over the features yields the list's intended findings |
| Phenotools.AsWrittenValidateFeatureList | lib/phenotools.cc:1139-1141 | the same loop yields the as-written findings |
| Phenotools.ValidateGene | lib/phenotools.cc:544-556 | an ERROR for a missing id, then one for a missing symbol, each exactly when it holds, at their positions |
| Phenotools.ValidateHgvsAllele | lib/phenotools.cc:563-575 | a WARNING for a missing id, then an ERROR for a missing HGVS string, each exactly when it holds, at their positions |
| Phenotools.ValidateVcfAlleleHeader | lib/phenotools.cc:605-614 | the id WARNING and the genome-assembly ERROR, at their positions |
| Phenotools.ValidateVcfAlleleCall | lib/phenotools.cc:615-627 | the chromosome, reference and alternative ERRORs, at their positions |
| Phenotools.ValidateVcfAllele | lib/phenotools.cc:604-630 | one finding per missing field, in field order, each at its position; nothing exactly for a well-formed allele |
| Phenotools.VcfAlleleParts | lib/phenotools.cc:604-630 | the two parts joined in order give those positions |
| Phenotools.ValidateAllele | lib/phenotools.cc:677-696 | LACKS_ALLELE exactly when there is neither an HGVS nor a VCF allele; otherwise only allele findings |
| Phenotools.ValidateVariant | lib/phenotools.cc:674-707 | a missing allele and a missing zygosity are each reported exactly when they hold; nothing exactly for a well-formed variant |
| Phenotools.VariantParts | lib/phenotools.cc:674-707 | the allele and zygosity parts joined in order give those properties |
| Phenotools.ValidateOnset | lib/phenotools.cc:743-759 | only the onset present is checked, and an age or age range gives only age ERRORs |
| Phenotools.ValidateDisease | lib/phenotools.cc:737-761 | DISEASE_LACKS_TERM exactly when the term is missing; nothing exactly for a well-formed disease |
| Phenotools.ValidateHtsFile | lib/phenotools.cc:817-835 | one finding per failed check, a missing URI and an empty sample map each reported exactly when they hold, nothing exactly for a well-formed file |
| Phenotools.HtsFileFindingsOrder | lib/phenotools.cc:817-835 | each of the four findings sits right after those of the checks before it |
| Phenotools.EmptyHtsFile | lib/phenotools.cc:817-835 | a file with nothing set reports all four findings in check order |
| Phenotools.ValidateResourceNaming | lib/phenotools.cc:871-884 | the id, name and namespace-prefix ERRORs, at their positions |
| Phenotools.ValidateResourceLocation | lib/phenotools.cc:885-896 | the url, version and IRI-prefix ERRORs, at their positions |
| Phenotools.ValidateResource | lib/phenotools.cc:870-898 | one ERROR per empty field, in field order, each at its position; nothing exactly for a well-formed resource |
| Phenotools.ResourceParts | lib/phenotools.cc:870-898 | the two parts joined in order give those positions |
| Phenotools.ValidateMetaData | lib/phenotools.cc:964-981 | missing creation time, creator and resources are each reported exactly when they hold, all ERRORs, in that order |
| Phenotools.MetaDataWithTimestampOnly | lib/phenotools.cc:964-981 | metadata with only a time stamp gives the creator ERROR and then the resources ERROR |
| Phenotools.ValidateProcedure | lib/phenotools.cc:1051-1064 | PROCEDURE_LACKS_CODE exactly when the code is missing; otherwise the code's findings |
| Phenotools.ValidateTumorDiagnosis | lib/phenotools.cc:1396-1410 | a WARNING exactly for each of histology, progression and grade that is missing, else that term's findings |
| Phenotools.TumorDiagnosisParts | lib/phenotools.cc:1396-1410 | the three checks joined in order give those properties |
| Phenotools.ValidateTumorStaging | lib/phenotools.cc:1411-1424 | a WARNING exactly when there are no stages, and one exactly when there are no markers, else each term's findings |
| Phenotools.ValidateTumor | lib/phenotools.cc:1396-1424 | the five missing-tumour-data WARNINGs, each exactly when it holds; nothing exactly when the tumour data are well formed |
| Phenotools.TumorParts | lib/phenotools.cc:1396-1424 | the diagnosis and staging parts joined in order give those properties |
| Phenotools.AsWrittenBiosamplePhenotypes | lib/phenotools.cc:1372-1381 | as written, the missing-phenotypes WARNING appears exactly when the biosample HAS features, and nothing else is reported |
| Phenotools.BiosamplePhenotypes | lib/phenotools.cc:1372-1381 | as intended, the WARNING exactly when there are no features, and a missing feature type exactly when some feature lacks one |
| Phenotools.ValidateBiosampleIdentity | lib/phenotools.cc:1360-1371 | a missing id and a missing sampled tissue are each reported exactly when they hold |
| Phenotools.AsWrittenValidateBiosampleCollection | lib/phenotools.cc:1372-1395 | as written, the phenotype WARNING exactly when there are features, the age WARNING exactly when there is no age |
| Phenotools.ValidateBiosampleCollection | lib/phenotools.cc:1372-1395 | as intended, the phenotype WARNING exactly when there are no features, missing types and a missing age each reported exactly when they hold |
| Phenotools.CollectionParts | lib/phenotools.cc:1372-1395 | the phenotype and age parts joined in order give those properties |
| Phenotools.AsWrittenBiosampleFindings | lib/phenotools.cc:1357-1429 | as written: a missing id, a missing tissue and a missing age each reported exactly when they hold, the phenotype WARNING exactly when there are features, and no feature finding at all |
| Phenotools.AsWrittenBiosampleParts | lib/phenotools.cc:1357-1429 | the identity, as-written collection and tumour parts joined in order give those properties |
| Phenotools.BiosampleFindings | lib/phenotools.cc:1357-1429 | as intended: the same, with the phenotype WARNING exactly when there are no features and missing feature types reported; nothing exactly for a well-formed biosample |
| Phenotools.BiosampleParts | lib/phenotools.cc:1357-1429 | the identity, collection and tumour parts joined in order give those properties, and feature findings come only from the collection part |
| Phenotools.ValidateTumorLoops | lib/phenotools.cc:1396-1424 | the tumour checks with their stage and marker loops yield the tumour findings |
| Phenotools.ValidateBiosample | lib/phenotools.cc:1357-1429 | the biosample check with its loops yields the intended findings |
| Phenotools.AsWrittenValidateBiosample | lib/phenotools.cc:1357-1429 | the biosample check as written, whose feature loop only runs over an empty list, yields the as-written findings |
| Phenotools.AsWrittenBiosampleInvertsPhenotypes | lib/phenotools.cc:1372-1381 | for any biosample with an untyped feature, as written it warns of no phenotypes and misses the type; as intended the reverse |
| Phenotools.BiosampleWithFeatureShowsInversion | lib/phenotools.cc:1372-1381 | one concrete biosample shows that inversion |
| Phenotools.BiosampleListFindings | lib/phenotools.cc:1143-1147 | a missing biosample id is reported exactly when some biosample lacks one; nothing exactly when all are well formed |
| Phenotools.AsWrittenBiosampleListFindings | lib/phenotools.cc:1143-1147 | the same list as written reports no feature finding |
| Phenotools.GeneListFindings | lib/phenotools.cc:544-556 | a missing gene id is reported exactly when some gene lacks one; nothing exactly when all genes are well formed |
| Phenotools.VariantListFindings | lib/phenotools.cc:674-707 | a missing allele is reported exactly when some variant lacks one; nothing exactly when all are well formed |
| Phenotools.DiseaseListFindings | lib/phenotools.cc:737-761 | a missing term is reported exactly when some disease lacks one; nothing exactly when all are well formed |
| Phenotools.HtsFileListFindings | lib/phenotools.cc:1163-1167 | a missing URI and an empty sample map are each reported exactly when some file has it |
| Phenotools.ValidateBiosampleList | lib/phenotools.cc:1143-1147 | the loop over the biosamples yields the list's intended findings |
| Phenotools.AsWrittenValidateBiosampleList | lib/phenotools.cc:1143-1147 | the same loop yields the as-written findings |
| Phenotools.ValidateGeneList | lib/phenotools.cc:1148-1152 | the loop over the genes, as intended, yields the genes' findings |
| Phenotools.ValidateVariantList | lib/phenotools.cc:1153-1157 | the loop over the variants, as intended, yields the variants' findings |
| Phenotools.ValidateDiseaseList | lib/phenotools.cc:1158-1162 | the loop over the diseases, as intended, yields the diseases' findings |
| Phenotools.ValidateHtsFileList | lib/phenotools.cc:1163-1167 | the loop over the HTS files yields the files' findings |
| Phenotools.ValidatePhenopacketSubject | lib/phenotools.cc:1121-1134 | a missing id and a missing subject are each reported exactly when they hold |
| Phenotools.SubjectParts | lib/phenotools.cc:1121-1134 | the id and subject parts joined in order give those properties |
| Phenotools.ValidatePhenopacketFeatures | lib/phenotools.cc:1135-1142 | the no-features WARNING exactly when there are none; nothing exactly when there are features and all are well formed |
| Phenotools.AsWrittenValidatePhenopacketFeatures | lib/phenotools.cc:1135-1142 | the same with the feature check as written |
| Phenotools.FeaturesLackNoWarning | lib/phenotools.cc:1135-1142 | feature findings never contain the phenopacket's or the biosample's missing-phenotypes WARNING |
| Phenotools.ValidatePhenopacketPhenotypes | lib/phenotools.cc:1135-1147 | the feature and biosample part: the no-features WARNING exactly when there are none |
| Phenotools.PhenotypesParts | lib/phenotools.cc:1135-1147 | the feature and biosample findings joined in order give those properties |
| Phenotools.AsWrittenValidatePhenopacketPhenotypes | lib/phenotools.cc:1135-1147 | the same part as written never reports missing evidence |
| Phenotools.AsWrittenPhenotypesParts | lib/phenotools.cc:1135-1147 | the two as-written parts joined in order give those properties |
| Phenotools.ValidatePhenopacketGenomics | lib/phenotools.cc:1148-1162 | as intended, a missing gene id, allele and disease term are each reported exactly when some element lacks it |
| Phenotools.GenomicsParts | lib/phenotools.cc:1148-1162 | the gene, variant and disease findings joined in order give those properties |
| Phenotools.ValidatePhenopacketMetaData | lib/phenotools.cc:1168-1172 | PHENOPACKET_LACKS_METADATA exactly when there is no metadata, else the metadata's findings |
| Phenotools.ValidatePhenopacketFiles | lib/phenotools.cc:1163-1172 | missing metadata, a missing URI and an empty sample map are each reported exactly when they hold |
| Phenotools.FilesParts | lib/phenotools.cc:1163-1172 | the file and metadata findings joined in order give those properties |
| Phenotools.PhenopacketFindings | lib/phenotools.cc:1118-1174 | as intended: each of the phenopacket's own findings and the first finding of each genomic element appears exactly when it holds; nothing exactly for a well-formed phenopacket |
| Phenotools.PartsReportDistinctCauses | lib/phenotools.cc:1118-1174 | each of those findings can come from one part of the check only |
| Phenotools.PhenopacketParts | lib/phenotools.cc:1118-1174 | in the four parts joined, each such finding is present exactly when its own part has it |
| Phenotools.AsWrittenPhenopacketFindings | lib/phenotools.cc:1118-1174 | as written: the phenopacket's own findings and the file findings each appear exactly when they hold, and no gene, variant or disease finding and no missing-evidence WARNING ever does |
| Phenotools.SubjectCauseNotGenomic | lib/phenotools.cc:1121-1134 | the subject part reports no genomic cause and no missing evidence |
| Phenotools.PhenotypesCauseNotGenomic | lib/phenotools.cc:1135-1147 | the phenotype part reports no genomic cause |
| Phenotools.FilesCauseNotGenomic | lib/phenotools.cc:1163-1172 | the file part reports no genomic cause and no missing evidence |
| Phenotools.AsWrittenPhenopacketParts | lib/phenotools.cc:1118-1174 | the three as-written parts joined in order give those properties |
| Phenotools.ValidatePhenopacket | lib/phenotools.cc:1118-1174 | the phenopacket check with its loops yields the intended findings |
| Phenotools.AsWrittenValidatePhenopacket | lib/phenotools.cc:1118-1174 | the phenopacket check as written, with its loops, yields the as-written findings |
| Phenotools.AsWrittenPhenopacketSkipsGenes | lib/phenotools.h:305 | for any phenopacket with a gene without id, the as-written check is silent about it and the intended one reports it |
| Phenotools.HtsFileCopy | lib/phenotools.cc:811-814 | the copy keeps the format and the genome assembly and loses the URI, the description and the sample map |
| Phenotools.DiseaseCopy | lib/phenotools.cc:724-735 | the copy never holds a class of onset |
| Phenotools.VariantCopy | lib/phenotools.cc:660-672 | the copy keeps the HGVS allele and the zygosity, and the VCF allele only when there is no HGVS allele |
| Phenotools.StoredPhenopacket | lib/phenotools.cc:1073-1114 | the stored phenopacket has no biosamples, keeps id, subject, features, genes and metadata, and has as many variants, diseases and HTS files as the message |
| Phenotools.StoredHtsFilesLackUri | lib/phenotools.cc:1105-1110 | once stored, a phenopacket reports a missing URI and an empty sample map exactly when it has HTS files |
| Phenotools.StoredPhenopacketClean | lib/phenotools.cc:1073-1174 | a stored phenopacket passes the as-written check exactly when its subject is well formed, it has clean features, no HTS file and well-formed metadata |
| Semantic.ThenAssociates | lib/phenotools.cc:1346 | findings prepended in two steps equal findings prepended at once, and a failure passes through unchanged |
| Semantic.AndThenEmpty | lib/phenotools.cc:1346-1351 | two steps find nothing exactly when neither fails and neither finds anything |
| Semantic.Absent | lib/phenotools.cc:1217-1225 | the values of one list missing from the other, no more than the first list holds |
| Semantic.Findings | lib/phenotools.cc:1217-1235 | one finding per name, in name order |
| Semantic.PrefixReport | lib/phenotools.cc:1217-1235 | one finding per used prefix not declared plus one per declared prefix not used, and none exactly when both sets are equal |
| Semantic.PrefixReportFindings | lib/phenotools.cc:1217-1235 | every finding names a prefix of the difference, undeclared for a used one and unused for a declared one |
| Semantic.ReportAbsent | lib/phenotools.cc:1217-1225 | one comparison loop appends a finding for each missing value, in order |
| Semantic.AbsentStep | lib/phenotools.cc:1217-1225 | one more value adds its finding exactly when the other set lacks it |
| Semantic.UpperIds | lib/phenotools.cc:955-959 | each resource id upper-cased, in resource order |
| Semantic.MetaDataPrefixes | lib/phenotools.cc:951-961 | the declared prefixes are sorted without repeats and are exactly the upper-cased resource ids |
| Semantic.GetPrefixes | lib/phenotools.cc:951-961 | the loop inserting upper-cased ids into a set yields those prefixes |
| Semantic.ValidateOntologyPrefixes | lib/phenotools.cc:991-1019 | an ERROR for each given prefix that no resource declares, then a WARNING naming each declared prefix not given, after the findings already present |
| Semantic.LowerCasePrefixIsUndeclared | lib/phenotools.cc:997-1001 | a prefix with a lower-case letter never matches a declared prefix |
| Semantic.EachCollects | lib/phenotools.cc:1190-1213 | collecting over a list succeeds exactly when every element's collection does, and then holds exactly the elements' prefixes |
| Semantic.InsertEach | lib/phenotools.cc:1190-1213 | the insertion loop puts each element's prefixes after those already collected |
| Semantic.EachFailurePersists | lib/phenotools.cc:1190-1213 | once collecting fails on an element, the whole list fails the same way |
| Semantic.TaxonPrefixes | lib/phenotools.cc:1186-1189 | the collection fails exactly when there is no subject to dereference |
| Semantic.DiseasePrefixes | lib/phenotools.cc:1191-1197 | a disease gives its term's prefix and its class of onset's prefix, and fails exactly when it has no term |
| Semantic.AsWrittenDiseasePrefixes | lib/phenotools.cc:1191-1197 | as written, a disease is read through its copy |
| Semantic.FeatureIdPrefix | lib/phenotools.cc:1202-1204 | the text before the last ':', or the whole id when it has none |
| Semantic.FeaturePrefixes | lib/phenotools.cc:1201-1206 | a feature gives its id's prefix and fails exactly when it has no type |
| Semantic.ZygosityPrefixes | lib/phenotools.cc:1207-1213 | as intended, a variant gives its zygosity's prefix and nothing when it has none |
| Semantic.AsWrittenZygosityPrefixes | lib/phenotools.cc:1209-1211 | as written, the zygosity is dereferenced whatever the empty guard found, failing exactly when there is none |
| Semantic.UsedPrefixesOk | lib/phenotools.cc:1184-1213 | the collection fails exactly when there is no subject, a disease without a term or a feature without a type |
| Semantic.UsedPrefixesCoverFeatures | lib/phenotools.cc:1201-1206 | a successful collection holds every feature's id prefix |
| Semantic.UsedPrefixesCoverDiseases | lib/phenotools.cc:1186-1198 | a successful collection holds the taxon's prefix and every disease's term and class of onset prefixes |
| Semantic.MetadataPrefixCheckMeaning | lib/phenotools.cc:1181-1236 | the check fails exactly when collecting fails or there is no metadata; otherwise it finds nothing exactly when the used prefixes are the declared ones, and each finding names one prefix of the difference |
| Semantic.ComparedPrefixes | lib/phenotools.cc:1214-1235 | the same two facts for any used and declared lists |
| Semantic.CollectUsedPrefixes | lib/phenotools.cc:1184-1213 | the collection loops yield the as-written or the corrected collection |
| Semantic.InsertAll | lib/phenotools.cc:1190-1213 | one collection loop after those already done, unless they failed |
| Semantic.CollectElementPrefixes | lib/phenotools.cc:1201-1213 | the feature loop and then the variant loop after the earlier ones |
| Semantic.ComparePrefixes | lib/phenotools.cc:1214-1235 | the two comparison loops append the prefix report after the given findings |
| Semantic.CompareWithMetaData | lib/phenotools.cc:1214-1235 | a collection failure passes through; otherwise the metadata is dereferenced and compared |
| Semantic.ValidateMetadataPrefixes | lib/phenotools.cc:1181-1236 | the prefix findings are appended after the given ones, which stay unchanged |
| Semantic.AsWrittenDiseaseLosesTermPrefix | lib/phenotools.cc:1191-1197 | a disease with a class of onset gives only the class's prefix as written, both prefixes as intended |
| Semantic.DiseaseCopyIdempotent | lib/phenotools.cc:724-735 | copying a copied disease changes nothing more |
| Semantic.AsWrittenZygosityGuardIsEmpty | lib/phenotools.cc:1207-1213 | a variant without zygosity makes the as-written collection fail, while the intended one skips it |
| Semantic.ObservedMembers | lib/phenotools.cc:1301-1308 | an id is observed exactly when some feature that is not negated has it |
| Semantic.UnknownFindingsMembers | lib/phenotools.cc:1309-1317 | one UNRECOGNIZED_TERMID finding per feature id the ontology lacks, naming it, and none exactly when every id is known |
| Semantic.ScanFeatures | lib/phenotools.cc:1301-1318 | the feature loop fails exactly as the specification does, with the same error, and otherwise yields its observed ids and findings |
| Semantic.FileFeature | lib/phenotools.cc:1304-1308 | a negated feature's id goes to the excluded ids and any other's to the observed ones |
| Semantic.RecordUnknown | lib/phenotools.cc:1310-1317 | an ERROR is appended exactly when get_term found nothing |
| Semantic.PairMeaning | lib/phenotools.cc:1321-1342 | a pair finds nothing exactly when neither term lies below the other, finds only REDUNDANT_ANNOTATION errors, and cannot fail when every numbered id has a term |
| Semantic.RowMeaning | lib/phenotools.cc:1320-1343 | the same for the inner loop over the later observed terms |
| Semantic.RowsMeaning | lib/phenotools.cc:1319-1344 | the pair check finds nothing exactly when no observed term lies below another, finds only REDUNDANT_ANNOTATION errors, and cannot fail on a consistent ontology |
| Semantic.CheckDirected | lib/phenotools.cc:1321-1332 | one direction: exists_path along IS_A, then both labels |
| Semantic.LabelPair | lib/phenotools.cc:1324-1331 | nothing when there is no path; a failure when a label is missing; otherwise one REDUNDANT_ANNOTATION error naming both terms |
| Semantic.JoinPair | lib/phenotools.cc:1321-1342 | the forward direction's findings, or its failure, come first |
| Semantic.CheckRow | lib/phenotools.cc:1320-1343 | the inner loop for observed term i covers the pairs (i, j) with j > i |
| Semantic.CheckRedundancy | lib/phenotools.cc:1319-1344 | the nested loops over the observed ids check each pair i < j in both directions |
| Semantic.SemanticallyValidate | lib/phenotools.cc:1294-1354 | unknown ids, then redundant pairs, then the prefix findings, or the first failure on the way |
| Semantic.CheckScanned | lib/phenotools.cc:1319-1352 | the pair check and the prefix check after a feature scan |
| Semantic.FinishSemantic | lib/phenotools.cc:1346 | the prefix check runs after the feature and pair findings, unless the pair check failed |
| Semantic.SemanticCheckClean | lib/phenotools.cc:1294-1354 | nothing is found exactly when every feature id is known, no observed term lies below another, and the used prefixes are the declared ones |
| JsonObo.NodeId | src/jsonobo.cc:49-57 | a node id never contains '/': it is taken from the last segment of the IRI |
| JsonObo.NodeIdMeaning | src/jsonobo.cc:49-57 | the id is as long as the last segment of the IRI, equal to it when it has no '_', and otherwise equal to it with ':' at the first '_' and nothing else changed |
| JsonObo.NodeIdAt | src/jsonobo.cc:54-57 | the first '_' of the last segment is the one position replaced by ':' |
| JsonObo.NodeIdAgreesWithLegacy | src/jsonobo.cc:49-57 | on an OBO PURL whose last segment has a '_' and no ':', the node id is the value the older TermId string parser gives |
| JsonObo.XrefVals | src/jsonobo.cc:104-110 | collecting the xref values fails only as undefined behaviour (an element that is no object) |
| JsonObo.XrefValsMeaning | src/jsonobo.cc:104-110 | the values are found exactly when every element is an object; each one is the "val" of some element, and there are no more of them than elements |
| JsonObo.CollectXrefVals | src/jsonobo.cc:104-110 | the xref loop computes exactly the xref values |
| JsonObo.XrefValsFailurePersists | src/jsonobo.cc:104-110 | a failure among the first i xrefs is the failure of the whole list |
| JsonObo.DefinitionTerm | src/jsonobo.cc:74-97 | the definition keeps the term's id and label; it never throws JsonParseException, and its only exit is exit(EXIT_FAILURE) on definition xrefs that are no array |
| JsonObo.MetaXrefsTerm | src/jsonobo.cc:98-124 | the meta xrefs and property values keep the id and label; they never exit, and fail only when the meta has "xrefs" |
| JsonObo.ApplyMetaXrefs | src/jsonobo.cc:98-124 | the statements of the meta xrefs block compute exactly MetaXrefsTerm |
| JsonObo.MetaTerm | src/jsonobo.cc:69-125 | the meta object keeps the id and label; a JsonParseException needs a definition and meta xrefs, a fatal exit needs a definition and is exit(EXIT_FAILURE) |
| JsonObo.ApplyMeta | src/jsonobo.cc:69-125 | the statements of the meta block compute exactly MetaTerm |
| JsonObo.StringMember | src/jsonobo.cc:41 | GetString succeeds exactly on a string member and gives its text; otherwise the behaviour is undefined |
| JsonObo.NodeTerm | src/jsonobo.cc:29-61 | a node that is no object, has no "type", a type other than "CLASS", no "id" or no "lbl" is skipped, in that order |
| JsonObo.MetaNodeTerm | src/jsonobo.cc:66-129 | a term is appended only when the node has a meta object, and it keeps the node's id and label; a node without a meta object adds nothing |
| JsonObo.NodeTermOf | src/jsonobo.cc:29-131 | the statements of add_node compute exactly NodeTerm |
| JsonObo.NodeTermKept | src/jsonobo.cc:29-131 | a node gives a term only when it passes every check, and the term has the node's normalised id and its label |
| JsonObo.NodeWithoutMetaSkipped | src/jsonobo.cc:66-73 | a node without a meta object, or with one that is no object, is never added and can fail only by undefined behaviour |
| JsonObo.NodeTermFailures | src/jsonobo.cc:85-116 | a JsonParseException comes only from a kept node whose meta has a definition and xrefs; an exit only from a kept node with a definition, and it is exit(EXIT_FAILURE) |
| JsonObo.IngestedStep | src/jsonobo.cc:164-170 | while the loop has not stopped, one more node changes the progress exactly as that node's outcome says |
| JsonObo.IngestedAdvance | src/jsonobo.cc:164-170 | after nodes that neither fail nor stop the loop, a JsonParseException ends the loop with the terms so far, another failure fails the loop, and a success adds the node's term |
| JsonObo.KeptTermsFromNodes | src/jsonobo.cc:164-170 | every term kept comes from a node that gives it |
| JsonObo.IngestedWithoutFailure | src/jsonobo.cc:164-170 | when no node fails, the loop runs to the end and keeps the terms of every node that gives one, in node order |
| JsonObo.IngestedStaysStopped | src/jsonobo.cc:164-170 | once a JsonParseException has stopped the loop, later nodes change nothing |
| JsonObo.IngestedFailsFrom | src/jsonobo.cc:164-170 | a failure over the first i nodes is the failure of the whole loop |
| JsonObo.IngestedStopsAt | src/jsonobo.cc:164-170 | a JsonParseException at node i, after nodes that do not fail, leaves exactly the terms of the nodes before i |
| JsonObo.JsonOboParser.constructor | src/jsonobo.cc:132-133 | a new parser starts with no terms |
| JsonObo.JsonOboParser.AddNode | src/jsonobo.cc:29-131 | add_node appends the node's term when it gives one and nothing otherwise, and reports the node's failure unchanged |
| JsonObo.JsonOboParser.AddNodes | src/jsonobo.cc:164-170 | the try loop appends exactly the terms the node loop keeps, stops at a JsonParseException and passes any other failure on |
| JsonObo.DocumentNodes | src/jsonobo.cc:142-161 | nodes are read only from an object that has "graphs" |
| JsonObo.DocumentNodesMeaning | src/jsonobo.cc:142-161 | the nodes are read exactly when "graphs" is a non-empty array whose first element has a "nodes" array, and they are that array |
| JsonObo.JsonOboParser.ReadNodes | src/jsonobo.cc:142-170 | a malformed document fails without adding terms; otherwise the terms appended are exactly those of the node loop over the document's nodes |
| HpoAnnotations.ParseBiocuration | lib/hpoannotation.cc:27-48 | the curator is the text before the first '['; the date is what sscanf reads from the payload, and a date field it cannot assign is a failure rather than a value |
| HpoAnnotations.BiocurationRoundTrip | lib/hpoannotation.cc:27-63 | the constructor reads back exactly the curation that to_string, as intended, writes, for a curator without '[' |
| HpoAnnotations.ParseBiocurationOf | lib/hpoannotation.cc:27-48 | a text with a given curator, whose payload holds a date, is the curation of that curator on that date |
| HpoAnnotations.PlainDateAvoids | lib/hpoannotation.cc:55-61 | the date part of a curation text holds only digits and '-' |
| HpoAnnotations.TextLayout | lib/hpoannotation.cc:29-39 | in "curator[date]" the curator is the text before '[' and the payload the text after it |
| HpoAnnotations.AsWrittenTextLosesCurator | lib/hpoannotation.cc:54-62 | to_string as written starts with the '[' of the date, so the curator reads back empty and the text differs from the intended one for every non-empty curator |
| HpoAnnotations.AsWrittenTextExample | lib/hpoannotation.cc:54-62 | the curation "HPO:skoehler" of 2020-05-01 is written "[2020-5-1]er" |
| HpoAnnotations.PlainDateExample | lib/hpoannotation.cc:55-61 | the 1st of May 2020 is written "2020-5-1", without leading zeros |
| HpoAnnotations.Split | lib/hpoannotation.cc:69-79 | split gives the pieces std::getline reads between delimiters, in order |
| HpoAnnotations.CurationsMeaning | lib/hpoannotation.cc:119-123 | the biocuration field is read exactly when every ';'-piece is, into one curation per piece, in order |
| HpoAnnotations.ParseAnnotation | lib/hpoannotation.cc:106-124 | the constructor's statements compute exactly the annotation of the line |
| HpoAnnotations.AnnotationOfFields | lib/hpoannotation.cc:115-123 | a line of 12 fields gives the disease id from field 1, the name from field 2, negation from a "NOT" prefix of field 3, the HPO id from field 4 and the curations from field 12, and fails exactly when one of those reads fails |
| HpoAnnotations.AnnotationFieldCount | lib/hpoannotation.cc:108-114 | a line ends the program with exit(1) exactly when it has other than 12 fields |
| HpoAnnotations.DataLines | lib/hpoannotation.cc:94-97 | the data lines are no more than the lines and none starts with '#' |
| HpoAnnotations.DataLinesAppend | lib/hpoannotation.cc:94-97 | the data lines of two stretches of the file follow one another |
| HpoAnnotations.DataLinesSplit | lib/hpoannotation.cc:94-97 | the data lines of a file are those before any position, then those after it |
| HpoAnnotations.DataLinesMembers | lib/hpoannotation.cc:94-97 | a line is a data line exactly when it is a line of the file not starting with '#' |
| HpoAnnotations.ParsePhenotypeHpoa | lib/hpoannotation.cc:85-103 | a file that cannot be opened ends the program with EXIT_FAILURE; otherwise every data line is parsed in file order and the first failure decides |
| HpoAnnotations.DataLinesStep | lib/hpoannotation.cc:94-101 | one more line adds itself to the data lines unless it is a comment |
| HpoAnnotations.ParsedDataLinesSkip | lib/hpoannotation.cc:95-97 | a comment line leaves the parsed annotations as they are |
| HpoAnnotations.ParsedDataLinesNext | lib/hpoannotation.cc:99-100 | a data line that parses appends its annotation |
| HpoAnnotations.ParsedDataLinesFail | lib/hpoannotation.cc:99-100 | a data line that does not parse, after data lines that do, is the outcome of the whole file |
| HpoAnnotations.OmimPrefix | lib/hpoannotation.cc:138-142 | an annotation whose disease id reads "P:local" is an OMIM annotation exactly when P is "OMIM" |
| HpoAnnotations.NegatedRoundTrip | lib/hpoannotation.cc:117 | get_negated writes "NOT" exactly for a negated annotation, so the constructor's test reads the flag back |
| HpoAnnotations.AsWrittenNewerThan | lib/hpoannotation.cc:160-175 | newer_than as written holds exactly when no curation has a year, month or day field below the threshold's, each compared on its own |
| HpoAnnotations.NewerThan | lib/hpoannotation.cc:160-175 | newer_than as evidently intended holds exactly when no curation date comes before the threshold |
| HpoAnnotations.DateLeqOrder | lib/hpoannotation.cc:166-171 | the date order is total, transitive and antisymmetric |
| HpoAnnotations.NewerMonotone | lib/hpoannotation.cc:160-175 | an annotation newer than a threshold is newer than any earlier threshold, and one without curations is newer than every threshold |
| HpoAnnotations.AsWrittenNewerThanIsStricter | lib/hpoannotation.cc:166-171 | the field-by-field test passes only dates the date order passes, yet it rejects 2020-01-01 against 2019-06-15 |
| HpoAnnotations.JoinSnoc | lib/hpoannotation.cc:194-198 | joining one more piece puts one delimiter between it and what is joined so far |
| HpoAnnotations.AsWrittenBiocurationString | lib/hpoannotation.cc:190-200 | get_biocuration_string as written joins the overwritten to_string texts with ';' |
| HpoAnnotations.BiocurationString | lib/hpoannotation.cc:190-200 | get_biocuration_string joins the intended curation texts with ';', one after each but the last |
| HpoAnnotations.JoinedTexts | lib/hpoannotation.cc:194-198 | the loop writes each element's text followed by the delimiter unless it is the last, which is the join of the texts |
| HpoAnnotations.JoinPrefixStep | lib/hpoannotation.cc:194-198 | the first text stands alone and every later one comes after a delimiter |
| HpoAnnotations.TextAvoids | lib/hpoannotation.cc:54-62 | a curation text holds no character outside its curator, its brackets and its date |
| HpoAnnotations.CurationsRoundTrip | lib/hpoannotation.cc:119-123 | the constructor reads back the curations get_biocuration_string writes, when no curator holds '[' or ';' |
| HpoAnnotations.AnnotationCurationsRoundTrip | lib/hpoannotation.cc:106-124 | a line whose twelfth field is the biocuration string of some curations is read with exactly those curations |
| HpoAnnotations.BiocurationStringAvoids | lib/hpoannotation.cc:190-200 | the biocuration string is not empty and holds no character that no curator, date or delimiter holds |
| HpoAnnotations.PiecesJoinLast | lib/hpoannotation.cc:69-79 | splitting a join gives back its pieces when no piece holds the delimiter and the last is not empty |
| HpoAnnotations.JoinAvoids | lib/hpoannotation.cc:194-198 | a join holds no character that neither the pieces nor the delimiter hold |
| HpoAnnotations.JoinNonEmpty | lib/hpoannotation.cc:194-198 | a join whose first text is not empty is not empty |
| Dates.StringToTime | app/phenotoolscommand.cpp:30-41 | reading a date fails only when sscanf leaves a field unassigned, which the source would read uninitialised |
| Dates.StringToTimeMeaning | app/phenotoolscommand.cpp:30-41 | a struct tm is produced exactly when the year, month and day are all read, and it holds that calendar date (year less 1900, month less one) |
| Dates.LeadingZero | app/phenotoolscommand.cpp:36 | a leading zero does not change the value %d reads |
| Dates.ReadDigitsAt | app/phenotoolscommand.cpp:36 | %d reads a whole run of digits, continuing the value of the digits before it |
| Dates.ScanDigitsAt | app/phenotoolscommand.cpp:36 | a run of digits followed by the end or a non-digit is read in full |
| Dates.ScanIntAt | app/phenotoolscommand.cpp:36 | %d reads back a run of digits as its value |
| Dates.ScanNegativeAt | app/phenotoolscommand.cpp:36 | %d reads back a run of digits after '-' as its negation |
| Dates.NumberText | app/hpocommand.cpp:21-32 | operator<< writes a number as a sign and digits whose value is the number, padded to two places or not |
| Dates.ScanText | app/phenotoolscommand.cpp:36 | %d reads back a number operator<< wrote, when no digit follows it |
| Dates.ScanDateAt | app/phenotoolscommand.cpp:36 | three numbers with a dash after the first and the second are read as the date |
| Dates.ScanDateIn | app/phenotoolscommand.cpp:36 | three signed numbers at their places, separated by dashes, are read as the date |
| Dates.ScanDateReads | app/phenotoolscommand.cpp:36 | "y-m-d" is read as the date y, m, d whatever non-digit text follows the day |
| Dates.DashedParts | app/hpocommand.cpp:21-32 | the parts of "a-b-c" sit at the positions their lengths give |
| Dates.StringifyDateRoundTrip | app/hpocommand.cpp:21-32 | string_to_time reads back exactly the struct tm whose date stringify_date writes |
| Dates.DateTextRead | app/phenotoolscommand.cpp:30-41 | three signed numbers holding the calendar date of t, joined by dashes, are read as t |
| Dates.PlainDateRoundTrip | app/phenotoolscommand.cpp:30-41 | string_to_time reads back the unpadded date text too, ignoring what follows the day |
| HpoCommand.BirthdayWritten | app/hpocommand.cpp:21-32 | stringify_date writes the 1st of November 2008 as "2008-11-01", with month and day padded to two digits |
| HpoCommand.BirthdayText | app/hpocommand.cpp:61-63 | the default start text "2008-11-01" is read as the 1st of November 2008 |
| HpoCommand.DefaultWindow | app/hpocommand.cpp:61-79 | with neither date given the window runs from the 1st of November 2008 to the current date, and the settings fail only when a given term id fails to parse |
| HpoCommand.InTimeWindowMeaning | app/hpocommand.cpp:342-367 | in_time_window holds exactly when start <= t <= end in the order of (year, month, day), both bounds included |
| HpoCommand.RowsStep | app/hpocommand.cpp:273-296 | one more descendant adds its row when the ontology has it, and nothing otherwise |
| HpoCommand.InWindowStep | app/hpocommand.cpp:288-299 | one more descendant raises total_newer exactly when the ontology has it and its creation date is in the window |
| HpoCommand.AsWrittenRowsStep | app/hpocommand.cpp:273-302 | as written, a descendant the ontology has adds its row and then the two count lines with the running counts |
| HpoCommand.OutputDescendants | app/hpocommand.cpp:252-303 | output_descendants, corrected, writes nothing for an unknown target, else the "#Subontology" line, the header, one row per known descendant, then "#Created after" and "#Total" once with the final counts |
| HpoCommand.AsWrittenOutputDescendants | app/hpocommand.cpp:252-303 | output_descendants as written writes the two count lines after every row, with the running counts |
| HpoCommand.Counts | app/hpocommand.cpp:273-299 | total_newer <= the descendants found <= total, and there is one row per descendant found |
| HpoCommand.AsWrittenLastPair | app/hpocommand.cpp:300-301 | when the last descendant is in the ontology, the report as written ends with the same two count lines as the corrected one |
| HpoCommand.AsWrittenNoCountsWithoutDescendants | app/hpocommand.cpp:265-302 | as written, a term without descendants gets only its two header lines, where the corrected report ends with zero counts |
| HpoCommand.AsWrittenRowsWithoutFound | app/hpocommand.cpp:273-302 | as written, nothing follows the header while no descendant is found in the ontology |
| HpoCommand.FoundPrefix | app/hpocommand.cpp:273-302 | the shortest prefix of the descendants holding every one that is found is no longer than the list |
| HpoCommand.FoundPrefixCounts | app/hpocommand.cpp:273-302 | the descendants after that prefix are all unknown and change neither count, and the prefix is empty exactly when none is found |
| HpoCommand.FindTop | app/hpocommand.cpp:169 | std::find gives the first top-level category equal to the ancestor, or none exactly when no category equals it |
| HpoCommand.FirstCategoryMeaning | app/hpocommand.cpp:166-175 | a term has a category exactly when one of its ancestors is a top-level category, and it is the one of the first such ancestor |
| HpoCommand.CategoryOf | app/hpocommand.cpp:167-175 | the loop that breaks at the first ancestor that is a top-level category computes exactly that category |
| HpoCommand.CategoryLinesStep | app/hpocommand.cpp:158-184 | one more term adds its category line or its failure, and raises valid_term_count unless the term is known to be obsolete |
| HpoCommand.CategoryLinesFailurePersists | app/hpocommand.cpp:158-184 | once a term fails, the whole output fails the same way |
| HpoCommand.OutputTermsByCategory | app/hpocommand.cpp:148-186 | output_terms_by_category writes exactly the category lines of the current term ids, and counts the valid terms |
| HpoCommand.CategoryLinesCount | app/hpocommand.cpp:158-184 | each term writes at most one line, obsolete terms none, so the lines number at most the valid terms |
| HpoCommand.AsWrittenRootNeverMatches | app/hpocommand.cpp:114-118 | every id from_string returns holds ':', so comparing the value with "0000118" never skips a line |
| HpoCommand.RootLineSkipped | app/hpocommand.cpp:114-127 | corrected, the root line writes nothing; as written, an ontology without the root makes the program dereference an empty optional |
| HpoCommand.AnnotatedLinesStep | app/hpocommand.cpp:112-145 | one more line of the term file adds its category line or its failure |
| HpoCommand.AnnotatedLinesFailurePersists | app/hpocommand.cpp:112-145 | once a line fails, the whole output fails the same way |
| HpoCommand.AnnotateTermfile | app/hpocommand.cpp:97-146 | a term file that cannot be opened writes nothing; otherwise each line of it writes its annotated line in order |
| HpoCommand.AnnotateLine | app/hpocommand.cpp:114-144 | the loop body computes exactly the annotated line: parse, root, obsolete and alternative ids skipped, then the category line |
| AnnotCommand.CountedSnoc | app/annotcommand.cpp:77-86 | one more annotation is counted exactly when it is an OMIM annotation whose phenotype has an IS_A path to the target |
| AnnotCommand.NewerOnesSnoc | app/annotcommand.cpp:87-100 | one more counted annotation is listed exactly when it passes newer_than against the threshold |
| AnnotCommand.ReportStep | app/annotcommand.cpp:86-100 | a counted annotation adds exactly one row, its own, when it passes the test, and nothing otherwise |
| AnnotCommand.OutputDescendants | app/annotcommand.cpp:53-111 | output_descendants writes "#<tid> (<label>)" (label "n/a" for an unknown term), one row per counted annotation that is newer than the date, then "#total annotations to terms descending from <label>:<total>" and "#total annotations newer than <date>:<total_newer>"; a date, id or file that cannot be read gives its failure |
| AnnotCommand.CountDescendants | app/annotcommand.cpp:77-101 | the loop's total is the number of counted annotations, total_newer the number of them that pass the test, and the rows are theirs in file order |
| AnnotCommand.WriteRow | app/annotcommand.cpp:90-99 | a row is the disease id, disease name, phenotype id, NOT flag and biocuration string, tab-separated |
| AnnotCommand.CountedMembers | app/annotcommand.cpp:77-86 | an annotation is counted exactly when it is an OMIM annotation of the file whose phenotype descends from the target |
| AnnotCommand.NewerOnesMembers | app/annotcommand.cpp:87-100 | an annotation is listed exactly when it is counted and passes the test |
| AnnotCommand.ReportRows | app/annotcommand.cpp:86-100 | rows = total_newer <= total <= the annotations of the file, and the rows are those of exactly the OMIM descendants that pass the test |
| AnnotCommand.Execute | app/annotcommand.cpp:115-142 | execute returns 0 without an hp.json path, 1 without a term id or a date, and otherwise writes the report and returns 0 |
| PhenotoolsCommand.ValidationLineMeaning | lib/phenotools.cc:108-119 | a printed validation starts with "[ERROR] " exactly for an error and "[WARNING] " exactly for a warning, and its message follows the tag |
| PhenotoolsCommand.SummaryTailTextIs | app/phenotoolscommand.cpp:93-95 | the tail of the summary says "issue" for one finding and "issues" for more |
| PhenotoolsCommand.IssueSummaryMeaning | app/phenotoolscommand.cpp:89-95 | the summary is "No Q/C issues identified!" exactly when there are none; otherwise it starts "#### We identified ", the number in it reads back as N, and the tail says "issue" for one and "issues" for more |
| PhenotoolsCommand.FramedCount | app/phenotoolscommand.cpp:93-95 | the number written between a fixed head and tail is found back at its offsets |
| PhenotoolsCommand.Report | app/phenotoolscommand.cpp:89-100 | the report holds one line more than there are findings |
| PhenotoolsCommand.ReportMeaning | app/phenotoolscommand.cpp:89-100 | the first line of the report is the summary and line k + 1 is finding k, in order |
| PhenotoolsCommand.SemanticInfoMeaning | lib/phenotools.cc:1347-1351 | the info line says "no errors" exactly when there are none; otherwise the count in it reads back as the number of findings |
| PhenotoolsCommand.CountedInfoDiffers | lib/phenotools.cc:1347-1351 | a count line ending in " issues" is never the "no errors" line |
| PhenotoolsCommand.Execute | app/phenotoolscommand.cpp:52-102 | execute returns EXIT_FAILURE for an unreadable file, 0 after the structural check alone without an hp.json path, exit code 1 on parser errors after the "#### Phenopacket at:" header, which exit(1) flushes, and otherwise appends the semantic findings after the structural ones and reports them all |
| PhenotoolsCommand.CorrectedExecute | app/phenotoolscommand.cpp:52-102 | the same outcomes for an unreadable file, a missing hp.json path and parser errors; corrected, the findings end with the semantic ones, in order, and the structural part is empty exactly when the phenopacket is well formed |
| Categories.RegistryShape | scripts/countHpoBySubontology.py:9-34 | the category registry has 25 keys and 25 ids, with no id twice |
| Categories.IdCodes | scripts/countHpoBySubontology.py:9-34 | every registered id is ten characters long and ends in its three-digit code |
| Categories.CodesDistinct | scripts/countHpoBySubontology.py:9-34 | no two registered ids end in the same three digits |
| Categories.KeysTabFree | scripts/countHpoBySubontology.py:9-34 | no category key holds a tab, the separator of the rows the script writes |
| Categories.IdsTabFree | scripts/countHpoBySubontology.py:9-34 | no category id holds a tab |
| CountScript.Int | scripts/countHpoBySubontology.py:71 | on ASCII text, int() succeeds exactly on an optionally signed decimal numeral with whitespace around it |
| CountScript.IntOfIntToString | scripts/countHpoBySubontology.py:71 | int() reads back the number str() writes |
| CountScript.ColonField | scripts/countHpoBySubontology.py:70 | taking the second ':'-separated field fails with an IndexError exactly when the line holds no ':' |
| CountScript.LastColonField | scripts/countHpoBySubontology.py:70 | the corrected read of a count: the field after the last ':' holds no ':' and ends the line, and it fails exactly when the line holds no ':' |
| CountScript.ScanStep | scripts/countHpoBySubontology.py:63-74 | reading one more line of tmp.txt applies the per-line update to the variables left by the lines before |
| CountScript.ScanFailurePersists | scripts/countHpoBySubontology.py:63-74 | once a line raises, reading the whole file raises the same exception |
| CountScript.ScanAppend | scripts/countHpoBySubontology.py:63-74 | reading two parts of a file one after the other is reading the whole file |
| CountScript.ScanUnchanged | scripts/countHpoBySubontology.py:63-74 | lines that change no variable leave the variables as they were |
| CountScript.ScanOne | scripts/countHpoBySubontology.py:63-74 | a one-line file is read by a single update |
| CountScript.ScanTwo | scripts/countHpoBySubontology.py:63-74 | in a two-line file the second line is read from the variables the first leaves |
| CountScript.HasLineLast | scripts/countHpoBySubontology.py:63-64 | a file has a line with a prefix exactly when its last line has it or a line before does |
| CountScript.PrefixesExclusive | scripts/countHpoBySubontology.py:64-72 | two prefixes that differ at some position never start the same line |
| CountScript.HpoLineKindPrefix | scripts/countHpoBySubontology.py:64-72 | each line matches at most one of the checked prefixes, so the branch taken names the prefix the line starts with |
| CountScript.HasKindHasLine | scripts/countHpoBySubontology.py:64-72 | a file has a line taking a branch exactly when it has a line starting with that branch's prefix |
| CountScript.HasKindLast | scripts/countHpoBySubontology.py:63-72 | a file has a line taking a branch exactly when its last line takes it or a line before does |
| CountScript.HpoStepSets | scripts/countHpoBySubontology.py:64-74 | a line that raises nothing sets a variable exactly when it was already set or the line takes that variable's branch; id and name are set together |
| CountScript.HpoScanSetsFrom | scripts/countHpoBySubontology.py:62-74 | after a file that raises nothing, each variable is set exactly when some line takes its branch |
| CountScript.HpoRecordOfMeaning | scripts/countHpoBySubontology.py:75-83 | run_phenotools returns a record exactly when tmp.txt has a "#Subontology", a "#Created after" and a "#Total" line; otherwise the ValueError names the first missing field, and the subontologyName error can never be raised |
| CountScript.RunPhenotools | scripts/countHpoBySubontology.py:49-83 | the command run is the phenotools hpo command for the date and term, and the result is the record read from tmp.txt, or the first exception the reading raises |
| CountScript.AnnotStepSets | scripts/countHpoBySubontology.py:102-107 | a line that raises nothing sets a count exactly when it was already set or the line starts with that count's prefix |
| CountScript.AnnotScanSetsFrom | scripts/countHpoBySubontology.py:99-107 | after a file that raises nothing, each count is set exactly when some line starts with its prefix |
| CountScript.AnnotRecordOfMeaning | scripts/countHpoBySubontology.py:108-112 | run_phenotools_annotations returns both counts exactly when tmp.txt has both summary lines; otherwise the ValueError names the total first |
| CountScript.RunPhenotoolsAnnotations | scripts/countHpoBySubontology.py:86-112 | the command run is the phenotools annotation command for the file, dates and term, and the result is the pair read from tmp.txt, or the first exception the reading raises |
| CountScript.CountsRowFields | scripts/countHpoBySubontology.py:134 | a written row splits on tabs back into the id, the key and the two counts, when id and key hold no tab |
| CountScript.CountRowsMeaning | scripts/countHpoBySubontology.py:132-134 | up to the first category whose run fails, one row per category in registry order, written from that category and its result; the exception is that first failure's |
| CountScript.CountRowsStopped | scripts/countHpoBySubontology.py:132-134 | once a category fails, no later category adds a row |
| CountScript.CountRowsStep | scripts/countHpoBySubontology.py:132-134 | each category either appends its row or stops the loop with its exception |
| CountScript.CountLoop | scripts/countHpoBySubontology.py:132-134 | the loop writes the rows of the categories in registry order up to the first exception, which it reports |
| CountScript.RunAnnotations | scripts/countHpoBySubontology.py:126-135 | annotcounts.txt holds the four header lines, then one row per category up to the first exception |
| CountScript.AnnotRowsFields | scripts/countHpoBySubontology.py:132-134 | every row of annotcounts.txt splits into the category's id, its key and the two counts read for it |
| CountScript.AsWrittenRunPhenotoolsHpo | scripts/countHpoBySubontology.py:115-124 | as written, the function writes "#Terms" and then raises a NameError on the undefined global date |
| CountScript.RunPhenotoolsHpo | scripts/countHpoBySubontology.py:115-124 | with the date passed in, hpocounts.txt holds the header lines, then one row per category up to the first exception |
| CountScript.Execute | scripts/countHpoBySubontology.py:138-154 | a missing or empty --date, --hpo or --annot (checked in that order) ends the script with its message; otherwise the annotation counts are written for the registry |
| CountScript.RegistryRows | scripts/countHpoBySubontology.py:126-135 | for the real registry, every row of annotcounts.txt splits into the category's id, its key and its two counts |
| GgPlot.PlotRegistryShape | scripts/createGGplotFile.py:9-34 | the plotting script's registry has 25 names whose ids are those of the counting script's registry, in the same order, with no id twice |
| GgPlot.Id2Cat | scripts/createGGplotFile.py:36-38 | id2cat has exactly the registered ids as keys, each mapped to the name of the last entry with that id, and one key per entry when the ids are distinct |
| GgPlot.Id2CatInverse | scripts/createGGplotFile.py:36-38 | with distinct ids, id2cat gives every id back its own name |
| GgPlot.Field | scripts/createGGplotFile.py:44 | taking the second tab-separated field fails with an IndexError exactly when the right-stripped line holds no tab |
| GgPlot.OccurrencesSnoc | scripts/createGGplotFile.py:43-45 | one more line adds one to the count of its own category and nothing to the others |
| GgPlot.OccurrencesAbsent | scripts/createGGplotFile.py:41-45 | a category no line names is counted zero times, as the defaultdict(int) gives |
| GgPlot.InputCategoryCounts | scripts/createGGplotFile.py:40-46 | the counts fail exactly when some line has no tab, with the first such line's IndexError; otherwise the keys are the categories that occur and each count is the number of lines naming it |
| GgPlot.CategoryLineField | scripts/createGGplotFile.py:44 | a "term id, tab, category id" line, as the category output writes it, has the category id as its second field |
| GgPlot.RepList | scripts/createGGplotFile.py:59-64 | rep_list holds one rep("name", 2) per registered category, in registry order |
| GgPlot.ValueList | scripts/createGGplotFile.py:67-73 | value_list holds two values per category: its count in the first file, and what the second file adds, so the two sum to its count in the second file |
| GgPlot.DataLines | scripts/createGGplotFile.py:59-79 | the data part of count_barplot.R is seven lines |
| GgPlot.ValueTextReadBack | scripts/createGGplotFile.py:76-78 | the value vector as written, split at commas and read with int(), gives back the values |
| GgPlot.PlotScript | scripts/createGGplotFile.py:40-79 | a line without a tab in either term file stops the script before anything is written; otherwise the name and value vectors hold the registry's names and the counts of both files, and with distinct ids the three vectors of the data frame have equal length |
| ReadBack.DiffersAt | scripts/countHpoBySubontology.py:64 | a line that differs from a prefix at some position does not start with it |
| ReadBack.SpacedNumber | scripts/countHpoBySubontology.py:70-71 | a number written after ": " is read back by int() of the stripped field |
| ReadBack.SummaryField | scripts/countHpoBySubontology.py:70 | the field after the ':' of a written "a:b" line is b when only one ':' is in it |
| ReadBack.SummaryLine | scripts/countHpoBySubontology.py:69-70 | a written "a:b" line starts as a does and its field after the ':' is b |
| ReadBack.HpoSubontologyStep | scripts/countHpoBySubontology.py:64-68 | a "#Subontology" line sets the id to the first eleven characters of the stripped text after position 13 and the name to the rest without ')' |
| ReadBack.HpoCreatedStep | scripts/countHpoBySubontology.py:69-71 | a "#Created after" line with a numeric field sets createdAfter to that number |
| ReadBack.HpoTotalStep | scripts/countHpoBySubontology.py:72-74 | a "#Total" line with a numeric field sets total to that number |
| ReadBack.SubontologyPrefix | app/hpocommand.cpp:265-269 | the subontology line the hpo command writes starts with "#Subontology" and continues with ": id (label)" |
| ReadBack.SubontologyIdSlice | scripts/countHpoBySubontology.py:66 | the eleven-character slice of "HP:nnnnnnn (label)" is the id with the space after it |
| ReadBack.SubontologyStripped | scripts/countHpoBySubontology.py:65 | stripping the text after "#Subontology:" leaves "id (label)" |
| ReadBack.SubontologyNameSlice | scripts/countHpoBySubontology.py:67-68 | the text after the twelfth character, with every ')' removed, is the label without its ')' characters |
| ReadBack.SubontologyRead | app/hpocommand.cpp:265-269 | reading the written subontology line gives the id with a trailing space and the stripped label without ')' |
| ReadBack.ColumnHeaderRead | app/hpocommand.cpp:271 | the column header line changes nothing the script reads |
| ReadBack.CreatedText | app/hpocommand.cpp:300 | the written "#Created after" line takes that branch and its field after the ':' is a space and the count |
| ReadBack.CreatedRead | app/hpocommand.cpp:300 | reading the written "#Created after" line sets createdAfter to the count, when the date text holds no ':' |
| ReadBack.CreatedPrefix | app/hpocommand.cpp:300 | the written "#Created after" line takes that branch of the script for every date |
| ReadBack.CreatedTextWithColons | app/hpocommand.cpp:300 | when the date holds two ':', the field the script reads from the created line is the date's minutes |
| ReadBack.AsWrittenTimestampMisreadsCreated | scripts/countHpoBySubontology.py:70-71 | a count of 5 after the date 2019-01-01T10:20:30Z is read as 20 |
| ReadBack.CreatedFieldAnyDate | app/hpocommand.cpp:300 | read after its last ':', the created line gives back the written count for every date |
| ReadBack.TotalText | app/hpocommand.cpp:301 | the written "#Total" line takes that branch and its field after the ':' is a space and the count |
| ReadBack.TotalRead | app/hpocommand.cpp:301 | reading the written "#Total" line sets total to the count |
| ReadBack.PlainLineHpo | scripts/countHpoBySubontology.py:63-74 | a line not starting with '#' changes no variable of run_phenotools |
| ReadBack.DescendantRowPlain | app/hpocommand.cpp:289-296 | a descendant's row starts with its id and holds no line end |
| ReadBack.RowsPlain | app/hpocommand.cpp:273-299 | every descendant row starts with the descendant's id and holds no line end |
| ReadBack.HpoHeadScan | app/hpocommand.cpp:265-271 | the first two lines of the report set the id and the name of the subontology |
| ReadBack.HpoRowsScan | app/hpocommand.cpp:289-296 | the descendant rows leave the script's variables as they were |
| ReadBack.HpoTailScan | app/hpocommand.cpp:300-301 | the two count lines set createdAfter and total |
| ReadBack.ReportPlain | app/hpocommand.cpp:265-301 | no line of the corrected report holds a line end |
| ReadBack.HpoReportReadBack | scripts/countHpoBySubontology.py:62-83 | reading the corrected hpo report gives the target's id with its trailing space, its label, the number of descendants created in the window and the number of descendants |
| ReadBack.AsWrittenHpoReportWithoutRows | app/hpocommand.cpp:273-302 | as written, a report where no descendant is in the ontology has no count lines, and reading it raises the ValueError for createdAfter |
| ReadBack.AsWrittenRowsLineFree | app/hpocommand.cpp:273-302 | the rows as written, each followed by its two count lines, hold no line end |
| ReadBack.AsWrittenTripleScan | app/hpocommand.cpp:289-301 | a row followed by its two count lines sets both counts, whatever came before |
| ReadBack.AfterAsWrittenRowsStep | app/hpocommand.cpp:273-302 | a missing last descendant leaves the counts read back as before; a found one sets them to its window count and its position |
| ReadBack.AsWrittenRowsScanFound | app/hpocommand.cpp:289-301 | a found descendant's row and count lines move the read-back variables to its counts |
| ReadBack.AsWrittenRowsFoundStep | app/hpocommand.cpp:273-301 | a found descendant adds its row and its two count lines to the output |
| ReadBack.AsWrittenRowsScanMissing | app/hpocommand.cpp:275-279 | a missing descendant writes nothing and changes no read-back variable |
| ReadBack.AsWrittenRowsMissingStep | app/hpocommand.cpp:275-279 | a missing descendant adds no line |
| ReadBack.AsWrittenRowsScan | app/hpocommand.cpp:273-302 | reading the rows as written leaves the counts of the last descendant the ontology has |
| ReadBack.AsWrittenReportLineFree | app/hpocommand.cpp:265-302 | no line of the report as written holds a line end |
| ReadBack.AsWrittenHpoReportReadBack | app/hpocommand.cpp:273-302 | read back, the report as written gives the right window count but a total that stops at the last found descendant, short of the number of descendants exactly when the last descendant is missing |
| ReadBack.AnnotHeaderRead | app/annotcommand.cpp:76 | the "#id (label)" first line of the annotation report changes nothing the script reads |
| ReadBack.AnnotTotalStep | scripts/countHpoBySubontology.py:102-104 | a "#total annotations to" line with a numeric field sets total |
| ReadBack.AnnotNewerStep | scripts/countHpoBySubontology.py:105-107 | a "#total annotations newer" line with a numeric field sets createdAfter |
| ReadBack.AnnotTotalText | app/annotcommand.cpp:102-105 | the written total line starts with "#total annotations to" and its field after the ':' is the count |
| ReadBack.AnnotTotalRead | app/annotcommand.cpp:102-105 | reading the written total line sets total to the count, when the label holds no ':' |
| ReadBack.AnnotNewerText | app/annotcommand.cpp:106-110 | the written newer line starts with "#total annotations newer" and not "...to", and its field after the ':' is the count |
| ReadBack.AnnotNewerRead | app/annotcommand.cpp:106-110 | reading the written newer line sets createdAfter to the count, when the date holds no ':' |
| ReadBack.NewerPrefix | app/annotcommand.cpp:106-110 | the written newer line takes the createdAfter branch for every date |
| ReadBack.NewerTextWithColons | app/annotcommand.cpp:106-110 | when the date holds two ':', the field the script reads from the newer line is the date's minutes |
| ReadBack.AsWrittenTimestampMisreadsNewer | scripts/countHpoBySubontology.py:105-107 | a newer count of 5 after 2019-01-01T10:20:30Z is read as 20 |
| ReadBack.NewerFieldAnyDate | app/annotcommand.cpp:106-110 | read after its last ':', the newer line gives back the written count for every date |
| ReadBack.TotalFieldAnyLabel | app/annotcommand.cpp:102-105 | read after its last ':', the total line gives back the written count for every label |
| ReadBack.OmimRowPlain | app/annotcommand.cpp:90-99 | an OMIM annotation's row starts with the 'O' of its disease id |
| ReadBack.PlainLineAnnot | scripts/countHpoBySubontology.py:100-107 | a line not starting with '#' changes no variable of run_phenotools_annotations |
| ReadBack.OmimRowsPlain | app/annotcommand.cpp:77-101 | one row per newer OMIM annotation, each starting with 'O' and holding no line end |
| ReadBack.AnnotRowsScan | app/annotcommand.cpp:90-99 | the annotation rows leave the script's variables as they were |
| ReadBack.AnnotTailScan | app/annotcommand.cpp:102-110 | the two summary lines set total, then createdAfter |
| ReadBack.AnnotReportPlain | app/annotcommand.cpp:76-110 | no line of the annotation report holds a line end |
| ReadBack.AnnotReportReadBack | scripts/countHpoBySubontology.py:99-112 | reading the annotation report gives the number of newer annotations and the total below the term |

## Left out

- Ontology.Ontology.ExistsPath: requires an acyclic graph, given as a ghost rank that falls along every edge of the searched type. The depth-first search of lib/ontology.cc has no visited set, so on a cycle it does not terminate, and the model does not capture that.
- Ontology.Ontology.ExistsIsaPath: the same acyclicity requirement, for IS_A edges.
- Graph.Search: the same acyclicity requirement; it is the search both members above call.
- Semantic.SemanticallyValidate: requires an acyclic IS_A graph, because it runs the path search.
- Semantic.CheckScanned, Semantic.CheckRedundancy, Semantic.CheckRow and Semantic.CheckDirected: the same requirement, for the same reason.
- AnnotCommand.OutputDescendants, AnnotCommand.CountDescendants and AnnotCommand.Execute: the same requirement, because they call `exists_path`.
- PhenotoolsCommand.Execute and PhenotoolsCommand.CorrectedExecute: the same requirement, because they run the semantic validation.
- PhenotoolsCommand.Execute and PhenotoolsCommand.CorrectedExecute: when the semantic validation dereferences an empty field (undefined behaviour), the result is that failure alone. The header already written to standard output is not part of it, because what reaches the output then depends on buffering and on the crash.
- Ontology.Ontology.GetIsaParents: is modelled only over an ontology that meets the CSR invariant (`Valid()`). Such an ontology is built with `corrected` true, or as written with no edge whose destination is unknown (Ontology.NewOntology states both). The source checks nothing here. With a dangling edge, its reads go through offsets that the as-written count pass misplaces, so they land in the wrong blocks and run past the end of `edge_to_`. That behaviour is not modelled.
- Ontology.Ontology.ParentsAreTargets: is modelled only over an ontology that meets the CSR invariant (`Valid()`). Such an ontology is built with `corrected` true, or as written with no edge whose destination is unknown (Ontology.NewOntology states both). The source checks nothing here. With a dangling edge, its reads go through offsets that the as-written count pass misplaces, so they land in the wrong blocks and run past the end of `edge_to_`. That behaviour is not modelled.
- Ontology.Ontology.ExistsPath: is modelled only over an ontology that meets the CSR invariant (`Valid()`). Such an ontology is built with `corrected` true, or as written with no edge whose destination is unknown (Ontology.NewOntology states both). The source checks nothing here. With a dangling edge, its reads go through offsets that the as-written count pass misplaces, so they land in the wrong blocks and run past the end of `edge_to_`. That behaviour is not modelled.
- Ontology.Ontology.ExistsIsaPath: is modelled only over an ontology that meets the CSR invariant (`Valid()`). Such an ontology is built with `corrected` true, or as written with no edge whose destination is unknown (Ontology.NewOntology states both). The source checks nothing here. With a dangling edge, its reads go through offsets that the as-written count pass misplaces, so they land in the wrong blocks and run past the end of `edge_to_`. That behaviour is not modelled.
- Graph.Search: is modelled only over an ontology that meets the CSR invariant (`Valid()`). Such an ontology is built with `corrected` true, or as written with no edge whose destination is unknown (Ontology.NewOntology states both). The source checks nothing here. With a dangling edge, its reads go through offsets that the as-written count pass misplaces, so they land in the wrong blocks and run past the end of `edge_to_`. That behaviour is not modelled.
- Semantic.CheckDirected: is modelled only over an ontology that meets the CSR invariant (`Valid()`). Such an ontology is built with `corrected` true, or as written with no edge whose destination is unknown (Ontology.NewOntology states both). The source checks nothing here. With a dangling edge, its reads go through offsets that the as-written count pass misplaces, so they land in the wrong blocks and run past the end of `edge_to_`. That behaviour is not modelled.
- Semantic.CheckRow: is modelled only over an ontology that meets the CSR invariant (`Valid()`). Such an ontology is built with `corrected` true, or as written with no edge whose destination is unknown (Ontology.NewOntology states both). The source checks nothing here. With a dangling edge, its reads go through offsets that the as-written count pass misplaces, so they land in the wrong blocks and run past the end of `edge_to_`. That behaviour is not modelled.
- Semantic.CheckRedundancy: is modelled only over an ontology that meets the CSR invariant (`Valid()`). Such an ontology is built with `corrected` true, or as written with no edge whose destination is unknown (Ontology.NewOntology states both). The source checks nothing here. With a dangling edge, its reads go through offsets that the as-written count pass misplaces, so they land in the wrong blocks and run past the end of `edge_to_`. That behaviour is not modelled.
- Semantic.SemanticallyValidate: is modelled only over an ontology that meets the CSR invariant (`Valid()`). Such an ontology is built with `corrected` true, or as written with no edge whose destination is unknown (Ontology.NewOntology states both). The source checks nothing here. With a dangling edge, its reads go through offsets that the as-written count pass misplaces, so they land in the wrong blocks and run past the end of `edge_to_`. That behaviour is not modelled.
- Semantic.CheckScanned: is modelled only over an ontology that meets the CSR invariant (`Valid()`). Such an ontology is built with `corrected` true, or as written with no edge whose destination is unknown (Ontology.NewOntology states both). The source checks nothing here. With a dangling edge, its reads go through offsets that the as-written count pass misplaces, so they land in the wrong blocks and run past the end of `edge_to_`. That behaviour is not modelled.
- AnnotCommand.OutputDescendants: is modelled only over an ontology that meets the CSR invariant (`Valid()`). Such an ontology is built with `corrected` true, or as written with no edge whose destination is unknown (Ontology.NewOntology states both). The source checks nothing here. With a dangling edge, its reads go through offsets that the as-written count pass misplaces, so they land in the wrong blocks and run past the end of `edge_to_`. That behaviour is not modelled.
- AnnotCommand.CountDescendants: is modelled only over an ontology that meets the CSR invariant (`Valid()`). Such an ontology is built with `corrected` true, or as written with no edge whose destination is unknown (Ontology.NewOntology states both). The source checks nothing here. With a dangling edge, its reads go through offsets that the as-written count pass misplaces, so they land in the wrong blocks and run past the end of `edge_to_`. That behaviour is not modelled.
- AnnotCommand.Execute: is modelled only over an ontology that meets the CSR invariant (`Valid()`). Such an ontology is built with `corrected` true, or as written with no edge whose destination is unknown (Ontology.NewOntology states both). The source checks nothing here. With a dangling edge, its reads go through offsets that the as-written count pass misplaces, so they land in the wrong blocks and run past the end of `edge_to_`. That behaviour is not modelled.
- PhenotoolsCommand.Execute: is modelled only over an ontology that meets the CSR invariant (`Valid()`). Such an ontology is built with `corrected` true, or as written with no edge whose destination is unknown (Ontology.NewOntology states both). The source checks nothing here. With a dangling edge, its reads go through offsets that the as-written count pass misplaces, so they land in the wrong blocks and run past the end of `edge_to_`. That behaviour is not modelled.
- PhenotoolsCommand.CorrectedExecute: is modelled only over an ontology that meets the CSR invariant (`Valid()`). Such an ontology is built with `corrected` true, or as written with no edge whose destination is unknown (Ontology.NewOntology states both). The source checks nothing here. With a dangling edge, its reads go through offsets that the as-written count pass misplaces, so they land in the wrong blocks and run past the end of `edge_to_`. That behaviour is not modelled.
- Graph.NoPathToSelf, Graph.BlockTargets, Graph.PopKeeps, Graph.ScanEffect and Graph.ScanBlock: the same CSR requirement (`IsCsr`), for the same reason.
- GgPlot.DataLines: states only that the data part of count_barplot.R is seven lines. The values in those lines are stated by GgPlot.PlotScript and GgPlot.ValueTextReadBack.
- Dates.StringToTime: `%d` is read as an unbounded integer. The overflow of a C `int` on more than nine or ten digits is not modelled.
- CountScript.Int: models `int()` on ASCII text only. Python also accepts '_' between digits and any Unicode decimal digit, and these are not modelled. The script applies it only to counts the C++ commands write with `<<` on an `int`, which are ASCII digits after an optional '-'.
- Strings.PyInt: the same ASCII-only reading of `int()`, for the same reason.
- Strings.Strip: strips the ASCII whitespace Python's `str.strip()` removes, but not Unicode whitespace such as U+0085 or U+00A0. What it strips is a count written by `<<` with the separator the command wrote around it.
- Strings.IsPySpace: names only the ASCII characters `str.isspace()` accepts, for the reason given for Strings.Strip.
- Strings.PyLines: splits at '\n' only. A text-mode file in Python also ends lines at "\r\n" and at a lone '\r', and that translation is not modelled. The file read is tmp.txt, whose lines the C++ commands end with "\n".
- The `%f` seconds field of the date formats is never used, and is not modelled.
- Logging to standard output and standard error, the `debug_print` printers and the other `operator<<` pretty-printers are not modelled. The exceptions, which are modelled, are:
  - the `#…` protocol lines;
  - the lines the commands print as their result;
  - the printers of property values and of the older Property (Properties.PredicateValueText, Properties.LegacyPropertyText);
  - the printer of a validation (PhenotoolsCommand.ValidationLine).
- Opening, reading and writing files, and `os.system`, are not modelled. A file's contents are a parameter (`contents`, `lines`), and so is what running the command produces (`run`). This also covers `check_phenotools` and `setup.py`.
- The clock: `time(0)` and `gmtime`, used for the default end date, are the parameter `now`.
- The protobuf conversion of phenopackets, the rapidjson document model and the CLI11 option dispatch are not modelled. JSON values are an abstract `Json` datatype, and options are parameters.
- Functions whose bodies are not part of this model are parameters or abstract inputs: `get_ancestors`, `get_descendant_term_ids`, `get_creation_date`, `is_alternative_id`, `init_toplevel_categories`, `Xref::fromCurieString`, `Xref::of` and `PropertyValue::of`.
- Copy and move constructors and assignment operators are value semantics of datatypes. Where a copy loses fields (`HtsFile`, `Variant`, `Disease`), the loss is modelled by an explicit copy function.
- `have_common_ancestor`: only its three id checks are modelled. Its loop over ancestors is not.
- The JsonObo print loop is not modelled. Neither is the unconditional `exit(1)` at src/jsonobo.cc:192 that follows it.
- HpoCommand `count_descendants`, `show_qc`, `show_stats`, `execute` and `print_category` only print or dispatch, and are not modelled.
- Python's `defaultdict` insertion order is the registry order. The R theme and `ggsave` lines of count_barplot.R are fixed text and are not modelled.
- Csr.SortBy: `std::sort` is modelled as an insertion sort by the same key. Edges with equal keys, which are parallel edges, come out in reverse input order. `std::sort` leaves their order unspecified, so the model fixes one order the library may not produce.

## Findings

| source | as written | input that shows it | evidently intended | confidence | as-written member | corrected member |
|---|---|---|---|---|---|---|
| lib/ontology.cc:307-369 | the count pass counts every edge with a known source, and the fill pass skips edges whose destination is unknown, so the offsets run past edge_to_ | terms [HP:1], one edge HP:1 → X:1 with X:1 unknown: offsets [0, 1], no edge written | offsets count only the edges that are written | high, not executed | Ontology.Ontology.AsWrittenBuildCsr | Ontology.Ontology.BuildCsr |
| src/termid.cc:29 | `find_first_of("orcid.org/")` matches any one of those characters | "bad" is read as ORCID:bad | a test for the substring "orcid.org/" | high, not executed | TermIds.LegacyOrcidMatchesAnyLetter | TermIds.FromString |
| lib/hpoannotation.cc:54-62 | `stringstream ss(curator_)` followed by `ss <<` overwrites the curator from its start | HPO:skoehler with date 2020-05-01 is written "[2020-5-1]er" | the curator, then "[date]" | high, not executed | HpoAnnotations.AsWrittenTextLosesCurator | HpoAnnotations.BiocurationRoundTrip |
| lib/hpoannotation.cc:160-175 | newer_than compares year, month and day each on its own | a curation of 2020-01-01 against 2019-06-15 is not newer | a date comparison | high, not executed | HpoAnnotations.AsWrittenNewerThanIsStricter | HpoAnnotations.NewerThan |
| lib/phenotools.cc:523-525 | the missing-evidence WARNING is created but never pushed | a typed feature with no evidence reports nothing | the WARNING is reported | high, not executed | Phenotools.AsWrittenFeatureMissesEvidence | Phenotools.FeatureFindings |
| lib/phenotools.cc:1372-1381 | the phenotype test of a biosample is inverted | a biosample with one untyped feature warns of no phenotypes and misses the untyped feature | warn when there are no features, else check them | high, not executed | Phenotools.AsWrittenBiosampleInvertsPhenotypes | Phenotools.BiosampleFindings |
| lib/phenotools.h:305 | the gene, variant and disease `validate(vector&)` overloads have empty bodies | a gene with an empty id is never reported | each element's findings are appended | high, not executed | Phenotools.AsWrittenPhenopacketSkipsGenes | Phenotools.PhenopacketFindings |
| lib/phenotools.cc:811-814 | the HtsFile copy keeps only the format and the assembly, and the phenopacket stores copies | any phenopacket with an HTS file reports a missing URI and a missing sample map | the files are checked as read, reporting a missing URI only when it is missing | medium, not executed | Phenotools.StoredHtsFilesLackUri | Phenotools.PhenopacketFindings |
| lib/phenotools.cc:1191-1197 | the disease is read through a copy that holds the class of onset as its term | a disease with term HP:1 and onset class X:2 gives only "X" | both prefixes are collected | medium, not executed | Semantic.AsWrittenDiseaseLosesTermPrefix | Semantic.UsedPrefixesCoverDiseases |
| lib/phenotools.cc:1207-1213 | the has_zygosity guard has an empty body, so the zygosity is always dereferenced | a variant without zygosity makes the collection fail | skip a variant without zygosity | high, not executed | Semantic.AsWrittenZygosityGuardIsEmpty | Semantic.ZygosityPrefixes |
| lib/ontology.cc:497-501 | every failed id check reports t1 | t1 = HP:1 known, t2 = HP:2 unknown: the message names HP:1 | name the id that is not known | high, not executed | Ontology.AsWrittenAncestorCheckNamesKnownId | Ontology.AncestorIdCheck |
| app/hpocommand.cpp:114-118 | the root test compares the id's value, which holds "HP:", with "0000118" | a termfile line "HP:0000118" is never skipped | skip the root term | high, not executed | HpoCommand.AsWrittenRootNeverMatches | HpoCommand.RootLineSkipped |
| app/hpocommand.cpp:273-302 | the count lines are written inside the loop, after each found descendant | a term none of whose descendants is found gets no count lines, and the count script then raises "Could not find createdAfter" | one pair of count lines after the loop | high, not executed | ReadBack.AsWrittenHpoReportWithoutRows | ReadBack.HpoReportReadBack |
| scripts/countHpoBySubontology.py:115-124 | run_phenotools_hpo reads a global `date` the script never defines | any call raises NameError after "#Terms" is written | the date passed as a parameter | high, not executed | CountScript.AsWrittenRunPhenotoolsHpo | CountScript.RunPhenotoolsHpo |
| scripts/countHpoBySubontology.py:70-71 | each count is read as the field after the FIRST ':' of its summary line (app/hpocommand.cpp:300, app/annotcommand.cpp:102-110), but the line holds the --date or the term label before the count, and the date may be a timestamp with two ':' (the "%d-%d-%dT%d:%d:%fZ" format of app/phenotoolscommand.cpp:36 and app/annotcommand.cpp:59) | --date 2019-01-01T10:20:30Z with 5 newer terms: "#Created after 2019-01-01T10:20:30Z: 5" is read as 20, the minutes | read the field after the last ':' | high, not executed | ReadBack.AsWrittenTimestampMisreadsCreated | ReadBack.CreatedFieldAnyDate |
| scripts/countHpoBySubontology.py:105-107 | the annotation count is read the same way | --date 2019-01-01T10:20:30Z with 5 newer annotations: "#total annotations newer than 2019-01-01T10:20:30Z:5" is read as 20 | read the field after the last ':' | high, not executed | ReadBack.AsWrittenTimestampMisreadsNewer | ReadBack.NewerFieldAnyDate |
