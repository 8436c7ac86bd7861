# A verified model of the hazard pipeline's core

The system collects data about natural hazards for a location — earthquakes,
floods, volcanoes — condenses each feed into a summary for a language model,
records the model's verdicts in a shared threat store, and hardens a city's
infrastructure graph against the hazards it names. This project models, in
Dafny, the deterministic core of that system and proves what it promises:

- **Infrastructure graph** (`infra.dfy`, `graph.dfy`, `utility.dfy`,
  `directives.dfy`, `pruning.dfy`, `server.dfy`, `views.dfy`, `stats.dfy`).
  The graph is an undirected simple graph. Its nodes keep their insertion
  order and its edges are keyed by an unordered pair.
  - The model covers the OpenStreetMap tag classifier and the Overpass query.
  - It covers the typed utility wiring, and the resolution of the language
    model's labels by exact and fuzzy lookup.
  - It covers the four directive lists, the rule-chain fallback pruning and
    the optimisation server's removals, emergency additions and connectivity
    repair.
  - It covers the adjacency views sent to the model and the counting parts
    of both graph statistics.
  - Every transformation works on a copy, so it is a method over a graph
    value with a log of change records. Its loops carry the invariants that
    tie the result to a specification function.
- **Coordinate maps** (`risk.dfy`, `quake_mapper.dfy`, `flood_mapper.dfy`):
  - magnitudes and flood summaries are banded into risk levels;
  - each map keeps the highest-ranked level per coordinate key.
- **Volcanoes** (`volcano_pipeline.dfy`, `volcano_api.dfy`):
  - the enrichment, seismicity and composite risk score of the pipeline;
  - the nearest-volcano query;
  - the `VolcanoClient` class, with its stored list, refresh and risk
    lookup. Its own copies of the scoring steps are proved to agree with
    the pipeline's.
- **Preprocessors** (`quake_preprocessor.dfy`, `flood_preprocessor.dfy`):
  - filtering, sorting, buckets, halves, trends, clusters, spikes, risk
    days and list caps.
- **Validation and the threat store** (`validate.dfy`, `context.dfy`):
  - the seven checks of `validate`;
  - the deduplicating `save_threat` of `context_manager.py`, as a class
    over the store's contents.
- **Shared helpers**: `wrappers.dfy` (Option, Result), `assoc.dfy`
  (insertion-ordered dictionaries), `text.dfy` (ASCII string operations),
  `numeric.dfy` (sum, min, max, the sample standard deviation) and `sorting.dfy` (a stable sort by key).

Several inputs enter the model as function parameters. Nothing is assumed
about them beyond their types, except where a `requires` says so. For
example, an edge order lists every edge once, and a neighbour order lists
exactly a node's neighbours. The parameters are:
- floating-point rounding and square roots;
- haversine distances;
- timestamp parsing and formatting;
- networkx's edge and neighbour iteration orders;
- the seeded random draws;
- centrality values;
- the current time;
- the earthquake lookups.

The model follows the code where the code and its comments disagree. Rule 4
of the fallback pruning is commented as removing 70% of the roads under a
flood, but its draw is `rng.random() < 0.5`; the model uses 0.5.

## Model

| member | source | states |
|---|---|---|
| Infra.CategoryOf | mitigation/city_infrastructure_network.py:60-74 | a type has a category exactly when it is one of the thirteen INFRASTRUCTURE keys, and the category is Emergency, Shelter, Food or Utility |
| Infra.OsmTagsToType | mitigation/city_infrastructure_network.py:149-170 | the classifier only ever returns a key of INFRASTRUCTURE |
| Infra.HospitalWins | mitigation/city_infrastructure_network.py:158 | amenity=hospital is classified as Hospital whatever the other tags say (the first rule wins) |
| Infra.BuildOverpassQuery | mitigation/city_infrastructure_network.py:130-146 | the query has the 60-second timeout and a node clause then a way clause for each of the twenty filters, in filter order |
| Infra.LayoutMatches | mitigation/city_infrastructure_network.py:142-145 | a query laid out from a filter list selects exactly the elements some filter matches |
| Infra.UnmatchedTags | mitigation/city_infrastructure_network.py:131-141 | an element no filter matches has none of the filtered tag values, key by key |
| Infra.UnclassifiedUnmatched | mitigation/city_infrastructure_network.py:130-170 | an element the classifier rejects matches no filter of the query |
| Infra.QueryMatchIsClassified | mitigation/city_infrastructure_network.py:130-170 | every element a filter matches is given a type by the classifier |
| Infra.ClassifiedMatchesQuery | mitigation/city_infrastructure_network.py:130-170 | every element the classifier types is matched by some filter |
| Infra.QueryMatchesClassifier | mitigation/city_infrastructure_network.py:130-170 | the query selects an element if and only if the classifier gives it a type |
| Graphs.Key | mitigation/city_infrastructure_network.py:225 | an undirected edge is stored once, under its endpoints in ascending order |
| Graphs.KeySymmetric | mitigation/city_infrastructure_network.py:225 | `(a, b)` and `(b, a)` name the same edge, as `has_edge` treats them |
| Graphs.KeyEq | mitigation/city_infrastructure_network.py:225 | two endpoint pairs name the same edge exactly when they are equal as unordered pairs |
| Graphs.AddEdge | mitigation/city_infrastructure_network.py:682 | adding an edge keeps the nodes and their order and sets (or overwrites) exactly that edge's data |
| Graphs.RemoveEdge | mitigation/city_infrastructure_network.py:667 | removing an edge keeps the nodes and drops exactly that edge |
| Graphs.RemoveEdgeCount | mitigation/server.py:317-319 | removing an existing edge leaves one edge fewer |
| Graphs.AddNode | mitigation/city_infrastructure_network.py:698 | adding a new node appends it to the node order and changes no edge |
| Graphs.Neighbors | mitigation/server.py:67 | the neighbours of a node are exactly the nodes it shares an edge with |
| Graphs.OrderKeysAvoid | mitigation/server.py:399 | an edge listing names no edge twice, so the `j`-th edge is not among the earlier ones |
| Graphs.OrderKeysIn | mitigation/server.py:399 | every listed edge is an edge of the graph |
| Graphs.ReachRefl | mitigation/server.py:366 | every node reaches itself |
| Graphs.ReachStep | mitigation/server.py:366 | reachability extends along an edge |
| Graphs.ReachTrans | mitigation/server.py:366 | reachability is transitive |
| Graphs.ReachSym | mitigation/server.py:366 | reachability is symmetric in an undirected graph |
| Graphs.ReachMono | mitigation/server.py:380 | a path survives adding nodes and edges |
| Graphs.ClosedPath | mitigation/server.py:367 | a path that starts in a set with no edge leaving it stays inside that set |
| Graphs.ClosedReach | mitigation/server.py:367 | nothing outside a closed set is reachable from inside it |
| Graphs.ComponentsNonEmpty | mitigation/server.py:367 | a graph with nodes has at least one component |
| Graphs.OneComponentConnected | mitigation/server.py:366-367 | a single component means the graph is connected |
| Graphs.TwoComponentsDisconnected | mitigation/server.py:366-367 | two or more components mean the graph is not connected |
| Graphs.ConnectedIffOneComponent | mitigation/server.py:366-367 | a graph with nodes is connected if and only if it has exactly one component |
| Graphs.FillStep | mitigation/server.py:367 | expanding one node of the flood fill keeps every visited node reachable from the start, with only the work list able to have unvisited neighbours |
| Graphs.Closure | mitigation/server.py:367 | the flood fill from a node returns a set that holds the node, contains only nodes reachable from it, and has no edge leaving it |
| Graphs.ComponentsExtend | mitigation/server.py:367 | appending the closure of an uncovered node keeps a list of disjoint, closed, connected components |
| Graphs.Components | mitigation/server.py:367 | `connected_components` returns non-empty, pairwise disjoint, connected, closed sets that cover every node, listed in the order of their first node in insertion order |
| Graphs.FirstIndex | mitigation/server.py:367 | the position found holds a node of the set, no earlier position does, and it is the length of the node order when the set has no listed node |
| Graphs.FirstIndexAt | mitigation/server.py:367 | a position holding a node of the set with none before it is the first position |
| Graphs.OrderExtend | mitigation/server.py:367 | a component first met at the current position goes after every component first met earlier |
| Graphs.CoveredExtend | mitigation/server.py:367 | nodes already covered stay covered when a component is appended, and lie outside it |
| Graphs.CoveredAll | mitigation/server.py:367 | covering every node of the node order covers every node, which makes the partial list a full decomposition |
| Graphs.ComponentsStep | mitigation/server.py:367 | one step of the component scan covers one more node of the node order, and a new component, first met at that node, goes last |
| Risk.Rank | Earthquake/earthquake_mapper.py:19 | the ranks run from 0 to 3 |
| Risk.RankInjective | Earthquake/earthquake_mapper.py:19 | distinct levels have distinct ranks, so comparing ranks orders the levels strictly |
| Risk.Name | Earthquake/earthquake_mapper.py:19 | a level is written as one of "Low", "Medium", "High" and "Critical" |
| Sorting.Insert | mitigation/server.py:77 | inserting adds exactly one element: same multiset plus the new one |
| Sorting.InsertSorted | mitigation/server.py:77 | inserting into a sorted sequence keeps it sorted |
| Sorting.SortBy | mitigation/server.py:77 | `sort(key=...)` returns a permutation of its input that is sorted by the key |
| Sorting.SortByMembers | mitigation/server.py:77 | an element is in the sorted result exactly when it is in the input |
| Sorting.SortedTail | mitigation/server.py:77 | the tail of a sorted sequence is sorted |
| Sorting.SortedCons | mitigation/server.py:77 | an element whose key is at most every key of a sorted sequence can stand in front of it |
| Sorting.OfKeyAppend | mitigation/server.py:77 | the elements of one key in a concatenation are those of each part |
| Sorting.OfKeyAbove | mitigation/server.py:77 | a sorted sequence whose first key exceeds `c` has no element of key `c` |
| Sorting.InsertOfKey | mitigation/server.py:77 | insertion puts the new element after every element of the same key |
| Sorting.InsertFront | mitigation/server.py:77 | an element placed in front of larger keys comes after its equals |
| Sorting.InsertLater | mitigation/server.py:77 | insertion past the first element keeps the order of each key |
| Sorting.SortByStable | mitigation/server.py:77 | `sort` is stable: for every key, the elements with that key appear in the result in their input order |
| Server.IndexUpTo | mitigation/server.py:297-301 | after any prefix of the nodes, the index holds no empty label, and every label maps to a node of the graph that carries that label |
| Server.BuildIndex | mitigation/server.py:297-301 | the loop builds the index that the specification function gives for the whole node order |
| Server.IndexUpToHas | mitigation/server.py:297-301 | a label is indexed if and only if it is non-empty and some node carries it |
| Server.IndexUpToLast | mitigation/server.py:297-301 | an indexed label points at the last node in node order that carries it (a later node overwrites an earlier one) |
| Server.IndexFindsNode | mitigation/server.py:297-301 | when labels are distinct, every labelled node is found under its own label |
| Server.RemovalsUpTo | mitigation/server.py:311-331 | the removal loop keeps the nodes and gives every request either one removal record or one failure |
| Server.RemovePass | mitigation/server.py:311-331 | the `edges_to_remove` loop computes the graph, `edges_removed` and `removal_failures` that the specification function gives |
| Server.RemovalsShrink | mitigation/server.py:317-319 | the removal loop only takes edges away, and every edge it keeps is unchanged |
| Server.RemovalsCount | mitigation/server.py:317-325 | the graph loses exactly one edge per recorded removal |
| Server.RemovalsRecorded | mitigation/server.py:317-325 | each removal record names an edge of the input, with its edge type there, that the result no longer has |
| Server.RemovalsRefused | mitigation/server.py:326-331 | every removal failure gives the reason "Edge not found in graph" |
| Server.MissingFacts | mitigation/server.py:353-357 | the missing list names exactly the labels that were not found, in order, and is empty only when both were found |
| Server.AdditionsUpTo | mitigation/server.py:334-362 | the addition loop keeps the nodes and gives every request either one addition record or one failure |
| Server.AddPass | mitigation/server.py:334-362 | the `edges_to_add` loop computes the graph, `edges_added` and `addition_failures` that the specification function gives |
| Server.AdditionsGrow | mitigation/server.py:340-344 | the addition loop keeps every edge key and writes only emergency paths |
| Server.AdditionsRecorded | mitigation/server.py:340-351 | each addition record's endpoints are joined afterwards by an emergency path weighted by their distance |
| Server.AdditionsRefused | mitigation/server.py:352-362 | each addition failure gives "Node(s) not found: " followed by the labels that are missing |
| Server.ScanPartners | mitigation/server.py:373-377 | the inner loop keeps the best pair so far unless a strictly closer partner of `x` appears, and the result is at least as close as every pair from `x` |
| Server.ClosestPair | mitigation/server.py:370-377 | the double loop finds a pair from the first component to the second that no other such pair beats |
| Server.BridgeIsNew | mitigation/server.py:378-380 | the bridge into the next component is an edge the graph did not yet have |
| Server.BridgeReaches | mitigation/server.py:378-380 | once the bridge is added, every node of the next component is reachable from the root |
| Server.Bridge | mitigation/server.py:378-387 | a bridge writes exactly one emergency path, weighted by the pair's distance, and keeps the nodes |
| Server.RecordsStep | mitigation/server.py:378-387 | a bridge keeps the earlier bridge records and adds its own |
| Server.PairsStep | mitigation/server.py:370-377 | the closest-pair record grows by the new closest pair |
| Server.OnlyBridgesStep | mitigation/server.py:380 | every edge the input lacks is still a bridge after one more bridge |
| Server.WithinStep | mitigation/server.py:380 | the new edges stay inside the components joined so far |
| Server.EdgesStep | mitigation/server.py:380 | a bridge is a new edge and every earlier edge stays |
| Server.ReachStepped | mitigation/server.py:378-380 | after the bridge, every node of the components joined so far is reachable from the root |
| Server.RepairStep | mitigation/server.py:368-387 | one iteration of the repair loop keeps its invariant |
| Server.RepairStart | mitigation/server.py:366-367 | the invariant holds before the first bridge |
| Server.RepairConnects | mitigation/server.py:364-387 | once every component is joined, the graph is connected |
| Server.Repair | mitigation/server.py:364-387 | components are joined in order, each to the next by its closest pair; exactly one new emergency path is added per join and recorded; the input edges stay; the result is connected |
| Server.Reconnect | mitigation/server.py:366-387 | a graph already in one component is returned unchanged with no repairs; otherwise `Repair` joins the components and the result is connected, with the input's nodes and edges kept |
| Server.AfterRemovals | mitigation/server.py:311-331 | the removal requests keep the graph's nodes |
| Server.AfterAdditions | mitigation/server.py:334-362 | the addition requests keep the graph's nodes |
| Server.ApplyOptimizations | mitigation/server.py:289-389 | a non-null graph gives a connected result with the input's nodes; the removal lists and addition failures are those of the two loops; `edges_added` is the requested additions followed by one closest-pair bridge between each pair of consecutive components, the components in the order of their first node; the null graph is an error |
| Server.OutcomeOf | mitigation/server.py:289-389 | the two request loops, the components in first-node order and the repair together give the promised result and change lists, the repairs listed after the requested additions |
| Views.NeighborEntries | mitigation/server.py:66-76 | the inner loop lists an entry for each neighbour that is not an intersection, in neighbour order, with its label, edge type and rounded weight |
| Views.LabelledAll | mitigation/server.py:61-64 | over the whole node order, a label is met exactly when some non-intersection node carries it |
| Views.ByLabelKeys | mitigation/server.py:61-78 | the keys of a label-keyed dictionary are exactly the labels of the visited non-intersection nodes |
| Views.ByLabelValue | mitigation/server.py:61-78 | the value under a label belongs to a visited non-intersection node with that label |
| Views.ByLabelEntry | mitigation/server.py:61-78 | every stored pair is a visited non-intersection node's label and that node's value |
| Views.ByLabelAt | mitigation/server.py:61-78 | with distinct labels, each non-intersection node's label holds that node's own value |
| Views.BuildAdjacency | mitigation/server.py:54-79 | the outer loop of `build_adjacency_list` (and of `_build_adj`) builds the dictionary the specification function gives |
| Views.AdjStep | mitigation/server.py:61-78 | one outer iteration skips an intersection or stores the node's sorted row under its label |
| Views.ByLabelStep | mitigation/server.py:61-78 | a label-keyed dictionary grows by one `d[label] = v` per non-intersection node, and is unchanged by an intersection |
| Views.PutRow | mitigation/server.py:65-78 | storing a node's row is `adj[label] = sorted(nbs, key=distance)` |
| Views.AdjKeys | mitigation/server.py:60-79 | the adjacency list's keys are exactly the labels of the nodes that are not intersections |
| Views.AdjSorted | mitigation/server.py:77 | every neighbour list is in ascending order of distance |
| Views.RowLabels | mitigation/server.py:67-76 | a row names a label exactly when one of the kept neighbours carries it |
| Views.SortedRowLabels | mitigation/server.py:66-78 | sorting loses no neighbour: a node's stored list names a label exactly when one of its non-intersection neighbours carries it |
| Views.AdjSymmetric | mitigation/server.py:54-79 | with distinct labels, `b` is listed under `a` exactly when the two share an edge, and exactly when `a` is listed under `b` |
| Views.Labels | mitigation/server.py:84 | the labels of a list of entries are its neighbours, one per entry, in order |
| Views.CompactShape | mitigation/server.py:82-84 | the compact form keeps every key in its place and each list's neighbours in their order |
| Views.CompactGet | mitigation/server.py:82-84 | looking a label up in the compact form gives the detailed list's labels, or nothing when the label is absent |
| Views.AddTypedLookup | mitigation/server.py:92-97 | one step of the typed loop appends to exactly one list, that of the entry's edge type and label |
| Views.BuildTyped | mitigation/server.py:87-98 | `build_typed_adjacency` computes the dictionary the specification function gives |
| Views.TypedRow | mitigation/server.py:91-97 | the inner loop over one label's entries computes what the specification function gives |
| Views.OfType | mitigation/server.py:91-97 | the labels selected by edge type are no more than the entries |
| Views.AddRowLookup | mitigation/server.py:91-97 | the inner loop appends under the current label the neighbours of each edge type, in order, and nothing elsewhere |
| Views.TypedLookup | mitigation/server.py:87-98 | `typed[t][l]` is the neighbours of `l` whose edge is of type `t`, in order; missing keys read as empty |
| Views.AddTypedCount | mitigation/server.py:97 | each step adds exactly one neighbour label |
| Views.AddRowCount | mitigation/server.py:91-97 | the inner loop adds one neighbour label per entry |
| Views.TypedPreservesCount | mitigation/server.py:87-98 | no entry is lost or duplicated: the typed form holds as many labels as the adjacency list has entries |
| Views.NodeTypeMapFacts | mitigation/server.py:101-107 | the type map's keys are the labels of the non-intersection nodes; each label holds the type of a node it labels, and never "intersection" |
| Stats.EdgeTypes | mitigation/server.py:399-400 | the listed edges' types, one per listed edge, in listing order |
| Stats.IncIsPut | mitigation/server.py:401 | the counter step is the dictionary update `ec[t] = ec.get(t, 0) + 1` |
| Stats.IncGet | mitigation/server.py:401 | after the step, `t` counts one more and every other type keeps its count |
| Stats.Bump | mitigation/server.py:401 | each step adds one to the total of the counts |
| Stats.CountEdgeTypes | mitigation/server.py:398-401 | the counting loop computes the counter of the listed edge types |
| Stats.CountIsTally | mitigation/server.py:398-401 | an edge type is a key exactly when it occurs, and then it holds its number of occurrences |
| Stats.CountSum | mitigation/server.py:398-401 | the counts add up to the number of edges counted |
| Stats.OrderLength | mitigation/server.py:399 | listing every edge once gives as many entries as there are edges |
| Stats.CountsSumToEdges | mitigation/server.py:398-411 | `edge_type_counts` sums to `total_edges` |
| Stats.InfraCountFacts | mitigation/server.py:403-406 | `infrastructure_nodes` counts the non-intersection nodes, is at most `total_nodes`, and equals it exactly when there is no intersection |
| Stats.IsConnected | mitigation/city_infrastructure_network.py:418 | connectivity is true exactly when the graph has nodes and every node reaches every other |
| Stats.TopCriticalFacts | mitigation/city_infrastructure_network.py:423-429 | at most ten entries, in descending centrality; with the dropped entries they form exactly the label/centrality pairs, and no dropped entry ranks above a kept one |
| Stats.TopCriticalFrom | mitigation/city_infrastructure_network.py:427-429 | each top entry is the label of a non-intersection node with that node's centrality |
| Stats.CityStats | mitigation/city_infrastructure_network.py:409-431 | the node, infrastructure and edge counts, the edge-type counter, connectivity (false when empty), the average path only for a connected graph of two or more nodes, and the top ten only for two or more nodes |
| Stats.GraphStats | mitigation/server.py:396-422 | the same counts; the null graph is an error because connectivity raises there; the average path is present exactly when connected |
| Utility.Star | mitigation/city_infrastructure_network.py:244-248 | the inner loop wires the centre to every listed member that is near enough, with its distance as weight, and touches no other edge |
| Utility.StarStep | mitigation/city_infrastructure_network.py:245-246 | one member of a star keeps the star's invariant |
| Utility.StarOnlyWired | mitigation/city_infrastructure_network.py:244-267 | a star whose edges all follow a wiring rule leaves only rule edges beyond the input |
| Utility.AddKeepsOnlyWired | mitigation/city_infrastructure_network.py:246 | adding a rule edge keeps every change a rule edge |
| Utility.AddKeepsType | mitigation/city_infrastructure_network.py:246 | adding an edge of a type keeps every pair already wired with that type, because distances are symmetric |
| Utility.KeepsTypePower | mitigation/city_infrastructure_network.py:244-248 | keeping the power edges keeps every plant wired to every substation and hospital |
| Utility.PlantStep | mitigation/city_infrastructure_network.py:244-248 | the two stars of the next plant wire it to every substation and every hospital |
| Utility.WirePowerPlants | mitigation/city_infrastructure_network.py:244-248 | phase 1 wires every power plant to every substation and every hospital, and adds nothing but rule edges |
| Utility.DrawsOver | mitigation/city_infrastructure_network.py:252-254 | a substation takes at most one random draw per node: one per consumer closer than 0.4 of the radius |
| Utility.DrawsOverStep | mitigation/city_infrastructure_network.py:252-254 | the draw count grows by one exactly at a consumer in range, since the draw is only taken when the distance test passes |
| Utility.FeedSkip | mitigation/city_infrastructure_network.py:252-254 | a node out of range, or one whose draw is not below 0.3, is left unwired |
| Utility.FeedAdd | mitigation/city_infrastructure_network.py:254-255 | a selected node gets a power edge weighted by its distance, which counts as a rule edge only because the substation's own draw selected the node |
| Utility.FedInRange | mitigation/city_infrastructure_network.py:252-254 | a node a substation's draw selected is a consumer (not an intersection, substation or power plant) closer than 0.4 of the radius |
| Utility.FeedEdges | mitigation/city_infrastructure_network.py:251-255 | the feed loop keeps the nodes of the graph |
| Utility.FeedInvariant | mitigation/city_infrastructure_network.py:251-255 | after any prefix of the nodes, exactly the selected consumers have been wired and the draw index has advanced by the draws taken |
| Utility.FeedFromSubstation | mitigation/city_infrastructure_network.py:249-255 | one substation's loop computes the specification graph and leaves the draw index after the draws it took |
| Utility.FedStep | mitigation/city_infrastructure_network.py:249-255 | the substations fed so far stay wired to what their own draws selected |
| Utility.SubStep | mitigation/city_infrastructure_network.py:249-255 | one substation more keeps the phase 2 invariant, with the draws continuing where the previous substation stopped |
| Utility.WireSubstations | mitigation/city_infrastructure_network.py:249-255 | phase 2 wires each substation to every consumer its draws select, keeps every power edge, and adds only rule edges, its substation edges only towards consumers some draw selected |
| Utility.KeepsAtPower | mitigation/city_infrastructure_network.py:256-267 | later phases keep the edges at the power plants, so phase 1 stays done |
| Utility.KeepsAtWater | mitigation/city_infrastructure_network.py:261-267 | phase 4 keeps the edges at the water treatment plants, so phase 3 stays done |
| Utility.KeepsAtFed | mitigation/city_infrastructure_network.py:256-267 | later phases keep the edges at the substations, so phase 2 stays done |
| Utility.WireWater | mitigation/city_infrastructure_network.py:256-260 | phase 3 wires every water treatment plant to every water supply and every hospital, and keeps the edges at plants and substations |
| Utility.EmergencyStep | mitigation/city_infrastructure_network.py:263-267 | one more emergency service is linked to every later one closer than half the radius |
| Utility.EmergencyLoopStep | mitigation/city_infrastructure_network.py:263-267 | one round of the pair loop keeps its invariant |
| Utility.LinkFrom | mitigation/city_infrastructure_network.py:264-267 | one round links service `i` to every later service closer than half the radius |
| Utility.WireEmergency | mitigation/city_infrastructure_network.py:261-267 | phase 4 links every pair of emergency services closer than half the radius, and keeps the edges of the earlier phases |
| Utility.AddUtilityEdges | mitigation/city_infrastructure_network.py:242-267 | only rule edges are added, a substation's only towards the consumers its draws selected; close emergency services are linked; when each list holds nodes of its type, every plant is wired to all its partners and every substation to every consumer its draws selected |
| Directives.Hits | mitigation/city_infrastructure_network.py:634-647 | one test result per index entry, in index order |
| Directives.FirstTrue | mitigation/city_infrastructure_network.py:634-636 | the scan returns nothing exactly when no entry passes, and otherwise the first entry that passes |
| Directives.FirstIndex | mitigation/city_infrastructure_network.py:634-647 | the position found is the first entry meeting the rule, and there is none exactly when no entry meets it |
| Directives.ScanRule | mitigation/city_infrastructure_network.py:634-647 | a rule's scan returns the id of an entry meeting it, and nothing exactly when no entry does |
| Directives.FuzzyScan | mitigation/city_infrastructure_network.py:632-648 | the three fuzzy rules together find an entry exactly when some entry meets one of them |
| Directives.FuzzyFind | mitigation/city_infrastructure_network.py:625-648 | an empty name finds nothing; an exact label finds its id; otherwise the id of an entry meeting a fuzzy rule; nothing exactly when the name is empty or neither exact nor fuzzy matches |
| Directives.FuzzyFindFirst | mitigation/city_infrastructure_network.py:632-648 | the rules are tried in order: with no exact hit and no entry meeting an earlier rule, the name resolves to the first entry meeting the rule |
| Directives.FuzzyScanFirst | mitigation/city_infrastructure_network.py:632-648 | with no entry meeting an earlier rule, the three-rule scan of the lowered, stripped name yields the first entry meeting the given rule |
| Directives.BlankNameResolvesFirst | mitigation/city_infrastructure_network.py:633-641 | a name of blanks only is not empty, strips to the empty string, which every label contains, and so resolves to the first index entry |
| Directives.SeenStep | mitigation/city_infrastructure_network.py:657-658 | the labels met over one node more are those met before plus that node's label |
| Directives.IndexEnter | mitigation/city_infrastructure_network.py:657-658 | entering one more node's label keeps the index sound and exact |
| Directives.IndexSkip | mitigation/city_infrastructure_network.py:657-658 | skipping an empty or "Intersection" label keeps the index sound and exact |
| Directives.LabelIndexFacts | mitigation/city_infrastructure_network.py:657-658 | the index holds distinct labels, each mapped to a node that carries it, and exactly the labels other than "" and "Intersection" |
| Directives.InitialIndex | mitigation/city_infrastructure_network.py:657-658 | every index entry names a node carrying that label |
| Directives.LabelIndexNext | mitigation/city_infrastructure_network.py:657-658 | one node more enters its label unless it is blank or "Intersection" |
| Directives.LastLabelWins | mitigation/city_infrastructure_network.py:657-658 | when nodes share a label, the index keeps the last of them |
| Directives.ResolvedIsLabelled | mitigation/city_infrastructure_network.py:660-661 | a resolved name always denotes a node with an indexed label |
| Directives.Successes | mitigation/city_infrastructure_network.py:655 | the applied counter never exceeds the number of records |
| Directives.ResolvedIn | mitigation/city_infrastructure_network.py:660-661 | names resolve to nodes of the graph the index was built for; a missing key resolves to nothing |
| Directives.UnitEdge | mitigation/city_infrastructure_network.py:681-682 | every edge a directive adds has weight 1.0 |
| Directives.RemoveDirective | mitigation/city_infrastructure_network.py:664-675 | a removal takes effect exactly when both names resolve and the nodes are joined; then only that edge goes and "removed_edge" is recorded; otherwise the graph is unchanged and "remove_edge_skipped" is recorded with its reason |
| Directives.AddDirective | mitigation/city_infrastructure_network.py:678-690 | an addition takes effect exactly when both names resolve; then the pair gets a weight-1.0 edge of the given type (default "emergency") and nothing else changes; otherwise the graph is unchanged and a skip is recorded |
| Directives.RerouteOne | mitigation/city_infrastructure_network.py:712-727 | a reroute takes effect exactly when all three names resolve; the direct edge goes, from–via and via–to become weight-1.0 edges, and no other pair changes; otherwise "reroute_skipped" with "Node not found" |
| Directives.MaxId | mitigation/city_infrastructure_network.py:693 | the maximum is an id of the list and at least every id |
| Directives.NextId | mitigation/city_infrastructure_network.py:693 | the first new id is above every node id, and one below it is a node id when the graph has nodes |
| Directives.NewNodeFields | mitigation/city_infrastructure_network.py:695-698 | a new node's category is INFRASTRUCTURE's for its type, with "Shelter" for unknown types; the default type is "Bunker/Shelter"; the default label is "Emergency_Node_" followed by the id's digits |
| Directives.Resolutions | mitigation/city_infrastructure_network.py:700-701 | one resolution per `connect_to` name |
| Directives.ResolutionsAt | mitigation/city_infrastructure_network.py:700-701 | each `connect_to` name's resolution is what the fuzzy lookup gives |
| Directives.JoinedStep | mitigation/city_infrastructure_network.py:700-703 | joining the new node to the node of one more name keeps the earlier joins |
| Directives.ConnectStep | mitigation/city_infrastructure_network.py:703 | joining the new node keeps the input's edges and adds only edges from the new node |
| Directives.Connect | mitigation/city_infrastructure_network.py:700-703 | joining the new node to its `connect_to` names keeps the graph well formed and its nodes |
| Directives.ConnectFacts | mitigation/city_infrastructure_network.py:700-703 | after the `connect_to` loop the old edges are kept, only edges from the new node with the directive's edge are added, and the new node is joined to the node of every name that resolved |
| Directives.IndexPut | mitigation/city_infrastructure_network.py:699 | entering the new label keeps every index entry a node of the grown graph |
| Directives.NodeAdded | mitigation/city_infrastructure_network.py:694-703 | one `add_nodes` entry appends exactly its node under `nxt` to the ids and the nodes, and leaves an index naming only nodes of the graph |
| Directives.AddNodeDirective | mitigation/city_infrastructure_network.py:694-709 | the loop body over `connect_to` computes exactly `NodeAdded`: the node under the next id, its label entered in the index (so later names can resolve to it), joins to every `connect_to` name that resolves, every existing edge kept |
| Directives.FreshIds | mitigation/city_infrastructure_network.py:693-709 | the ids `start` to `start + n - 1`, in order |
| Directives.Record1 | mitigation/city_infrastructure_network.py:664-727 | one more record tagged "llm_optimization" adds one to the counter exactly when it took effect |
| Directives.EdgeOutcome | mitigation/city_infrastructure_network.py:664-690 | a directive that keeps the nodes and adds only weight-1.0 edges keeps the loop invariant |
| Directives.NewNodesStep | mitigation/city_infrastructure_network.py:694-709 | the entries so far created their nodes under consecutive ids |
| Directives.NodeOutcome | mitigation/city_infrastructure_network.py:694-709 | adding a node with weight-1.0 edges from it keeps the loop invariant |
| Directives.NodesAddedStep | mitigation/city_infrastructure_network.py:694-709 | the node list grows by the entry's node under the next id |
| Directives.SegmentKept | mitigation/city_infrastructure_network.py:654 | earlier records stay in place when more are appended |
| Directives.RemoveOutcome | mitigation/city_infrastructure_network.py:665-675 | a `remove_edges` entry on the running graph keeps the nodes, records a removal, and counts exactly when it took effect |
| Directives.AddOutcome | mitigation/city_infrastructure_network.py:679-690 | an `add_edges` entry on the running graph keeps the nodes, records an addition, and counts exactly when it took effect |
| Directives.RerouteOutcome | mitigation/city_infrastructure_network.py:713-727 | a `reroute` entry on the running graph keeps the nodes, records a reroute, and counts exactly when it took effect |
| Directives.Removals | mitigation/city_infrastructure_network.py:664-675 | the `remove_edges` fold keeps the graph well formed, its nodes and the index, and adds one record per entry |
| Directives.Additions | mitigation/city_infrastructure_network.py:678-690 | the `add_edges` fold keeps the graph well formed, its nodes and the index, and adds one record per entry |
| Directives.Reroutes | mitigation/city_infrastructure_network.py:712-727 | the `reroute` fold keeps the graph well formed, its nodes and the index, and adds one record per entry |
| Directives.NodeNext | mitigation/city_infrastructure_network.py:694-709 | one `add_nodes` step appends exactly the entry's node under `nxt` and keeps the index naming only nodes |
| Directives.NewNodes | mitigation/city_infrastructure_network.py:693-709 | the `add_nodes` fold keeps every node below the next free id, adds one record per entry and counts every entry as applied |
| Directives.RemovalsAt | mitigation/city_infrastructure_network.py:664-675 | record `k` of the removals is entry `k` applied to the graph the first `k` entries left, and took effect exactly when both names resolved and their nodes were joined there |
| Directives.AdditionsAt | mitigation/city_infrastructure_network.py:678-690 | record `k` of the additions is entry `k` applied to the graph the first `k` entries left, took effect exactly when both names resolved, and then the pair carries the entry's weight-1.0 edge |
| Directives.ReroutesAt | mitigation/city_infrastructure_network.py:712-727 | record `k` of the reroutes is entry `k` applied to the graph the first `k` entries left, and took effect exactly when all three names resolved |
| Directives.NewNodesAt | mitigation/city_infrastructure_network.py:694-709 | record `k` of the new nodes is the record of entry `k` under the id `start + k` |
| Directives.NodeNextJoined | mitigation/city_infrastructure_network.py:694-703 | one `add_nodes` step creates the entry's node under `nxt` and joins it to every `connect_to` name that resolves in the index holding its own label |
| Directives.RemovalsSnoc | mitigation/city_infrastructure_network.py:664-675 | one more `remove_edges` entry is one more step of the fold |
| Directives.AdditionsSnoc | mitigation/city_infrastructure_network.py:678-690 | one more `add_edges` entry is one more step of the fold |
| Directives.ReroutesSnoc | mitigation/city_infrastructure_network.py:712-727 | one more `reroute` entry is one more step of the fold |
| Directives.NewNodesSnoc | mitigation/city_infrastructure_network.py:694-709 | one more `add_nodes` entry is one more step of the fold, under the next id |
| Directives.LlmDirections | mitigation/city_infrastructure_network.py:651-732 | the four folds in order from a copy of the graph and its label index: well formed, one record per directive |
| Directives.ThenKeeps | mitigation/city_infrastructure_network.py:664-727 | a step that keeps the nodes and only adds weight-1.0 edges keeps the loop invariant and appends one record of its phase |
| Directives.RemovalStep | mitigation/city_infrastructure_network.py:664-675 | one `remove_edges` entry moves the state by exactly one `RemoveOutcome` step |
| Directives.AdditionStep | mitigation/city_infrastructure_network.py:678-690 | one `add_edges` entry moves the state by exactly one `AddOutcome` step |
| Directives.ApplyRemovals | mitigation/city_infrastructure_network.py:664-675 | the `remove_edges` loop ends in exactly the state `Removals` folds from its start: graph, records and counter; one removal record per entry, the nodes kept |
| Directives.ApplyAdditions | mitigation/city_infrastructure_network.py:678-690 | the `add_edges` loop ends in exactly the state `Additions` folds from its start; one addition record per entry, the nodes kept |
| Directives.RerouteUnit | mitigation/city_infrastructure_network.py:717-720 | a reroute of the running graph keeps each edge or gives it weight 1.0, and counts as applied exactly when it took effect |
| Directives.RerouteStep | mitigation/city_infrastructure_network.py:712-727 | one reroute entry moves the state by exactly one `RerouteOutcome` step: its graph, its record, one more applied on success |
| Directives.ApplyReroutes | mitigation/city_infrastructure_network.py:712-727 | the `reroute` loop ends in exactly the state `Reroutes` folds from its start; one reroute record per entry, the nodes kept |
| Directives.NewNodeStep | mitigation/city_infrastructure_network.py:694-709 | one `add_nodes` entry moves the state by exactly one `NodeNext` step under the next id, and counts as applied |
| Directives.ApplyNewNodes | mitigation/city_infrastructure_network.py:693-709 | the `add_nodes` loop ends in exactly the state `NewNodes` folds from its start, the ids counting up from the first free one; one node and one record per entry, and every one counts as applied |
| Directives.LoggedIntro | mitigation/city_infrastructure_network.py:654-727 | the four lists' records in order make up the whole change log |
| Directives.LoggedInOrder | mitigation/city_infrastructure_network.py:654-727 | the removal, addition, node and reroute records occupy consecutive segments of the log, in list order |
| Directives.ApplyLlmDirections | mitigation/city_infrastructure_network.py:651-732 | the graph, the records and the counter are exactly those of `LlmDirections`; one record per directive, in order; old nodes keep their attributes; new nodes get fresh ids above every old id; every new or changed edge has weight 1.0; `applied` counts the records that took effect |
| Pruning.LowerAll | mitigation/city_infrastructure_network.py:777 | the calamity names lowered one by one, in order |
| Pruning.HazardsOf | mitigation/city_infrastructure_network.py:777-782 | the flood and earthquake rules apply exactly when some calamity name lowers to "flood" or "earthquake" |
| Pruning.Judge | mitigation/city_infrastructure_network.py:758-801 | rules 1, 2, 3, 5 and 6 remove an edge without a draw; an edge that is not a road takes no draw and is removed exactly by those rules; a road they spare is removed, under a flood, exactly when its first draw is below 0.5 or its second below 0.3 (taking one or two draws), and otherwise exactly when its one draw is below 0.3 |
| Pruning.CollectCuts | mitigation/city_infrastructure_network.py:748-804 | the first loop collects exactly the cuts of the scan over the listed edges |
| Pruning.ScanKeys | mitigation/city_infrastructure_network.py:750-804 | every cut names one of the listed edges |
| Pruning.ScanCuts | mitigation/city_infrastructure_network.py:750-804 | among the listed edges, one is cut exactly when the rule chain condemns it at the draws reached by then |
| Pruning.ScanKeysStep | mitigation/city_infrastructure_network.py:803-804 | one more edge adds its key to the cuts exactly when it is condemned |
| Pruning.AlwaysCutIsCut | mitigation/city_infrastructure_network.py:761-790 | an edge that rules 1, 2, 3, 5 or 6 condemn is gone after the pruning |
| Pruning.OtherTypesKept | mitigation/city_infrastructure_network.py:750-809 | emergency edges, and edges of any type the rules do not name, survive unchanged |
| Pruning.CutRecords | mitigation/city_infrastructure_network.py:810-811 | one record per cut, in order |
| Pruning.CutKeysAvoid | mitigation/city_infrastructure_network.py:807-809 | with distinct cuts, each cut's edge is still present when its turn comes |
| Pruning.ApplyCuts | mitigation/city_infrastructure_network.py:806-811 | exactly the listed edges are gone afterwards, nodes untouched, and when the list names distinct edges of the graph each yields its record |
| Pruning.OfTypes | mitigation/city_infrastructure_network.py:814-816 | a node is listed exactly when it is a node of the graph with one of the types |
| Pruning.OnlyEmergencyTrans | mitigation/city_infrastructure_network.py:813-843 | two phases that only add emergency edges compose into one |
| Pruning.LinkAll | mitigation/city_infrastructure_network.py:823-843 | the loop leaves exactly the input graph plus an emergency edge (weight 1.0) from every listed node not already joined to the target, and writes exactly one record per such node, in list order, naming both endpoints |
| Pruning.KeyInNewLinks | mitigation/city_infrastructure_network.py:825-826 | the target gains an edge to a node exactly when the node is listed and had no edge to the target |
| Pruning.LinkingFacts | mitigation/city_infrastructure_network.py:823-843 | the joined graph stays a valid graph on the same nodes, keeps every old edge unchanged, adds only emergency edges, and joins every listed node to the target |
| Pruning.LinkRecordsFacts | mitigation/city_infrastructure_network.py:827-831 | there are as many records as added edges, no more than listed nodes, all tagged, each naming a listed node that lacked the edge and the target |
| Pruning.LinkStep | mitigation/city_infrastructure_network.py:825-831 | one turn of the loop adds the edge and its record exactly when the edge is missing from the running graph, which is when the node was neither joined before nor listed earlier |
| Pruning.LinkingSnoc | mitigation/city_infrastructure_network.py:825-826 | joining one more node adds its edge when it is missing and changes nothing otherwise |
| Pruning.LinkRecordsSnoc | mitigation/city_infrastructure_network.py:827-831 | one more node adds its record exactly when its edge was missing and it was not listed earlier |
| Pruning.NewLinksSnoc | mitigation/city_infrastructure_network.py:825-826 | one more listed node adds its edge key exactly when it was not already joined |
| Pruning.LinkOf | mitigation/city_infrastructure_network.py:827-831 | the record of an added link is tagged, is an `added_edge` of type "emergency" with the note as reason, and names the node and the target |
| Pruning.RemovalPhase | mitigation/city_infrastructure_network.py:748-811 | the two loops leave the graph without the condemned edges and log their removals in listing order |
| Pruning.LinkToFirst | mitigation/city_infrastructure_network.py:819-843 | the result is exactly the joined graph and its records when both lists are non-empty, and the input unchanged with no records otherwise |
| Pruning.JoinedFacts | mitigation/city_infrastructure_network.py:819-843 | the guarded loop only adds emergency edges, keeps the graph valid, tags its records, and joins every node of the first list to the first node of the second when both are non-empty |
| Pruning.EmergencyPhase | mitigation/city_infrastructure_network.py:813-843 | the result is exactly the graph with hospitals joined to the first shelter and then fire stations to the first hospital, and the records are those of the hospital loop followed by those of the fire-station loop |
| Pruning.EmergencyFacts | mitigation/city_infrastructure_network.py:813-843 | the emergency phase keeps the graph valid, adds only emergency edges, joins every hospital to the first shelter and every fire station to the first hospital, and tags every record |
| Pruning.LinkedKept | mitigation/city_infrastructure_network.py:833-843 | the fire-station loop keeps the hospital–shelter links |
| Pruning.ProgrammaticPruning | mitigation/city_infrastructure_network.py:735-848 | the graph is exactly the one the rule chain spares with the emergency links added, and the records are exactly the removals in listing order followed by one addition record per added link |
| Pruning.PruningFacts | mitigation/city_infrastructure_network.py:735-848 | the pruned graph is valid on the same nodes, adds only emergency edges over the spared ones with every hospital and fire station linked, and every record is tagged "programmatic_pruning" |
| Pruning.CutsDistinct | mitigation/city_infrastructure_network.py:750-804 | the collected cuts name distinct edges of the graph |
| Pruning.ScanDistinct | mitigation/city_infrastructure_network.py:750-804 | the scan of distinct listed edges never cuts the same edge twice |
| QuakeMapper.MagToRisk | Earthquake/earthquake_mapper.py:22-31 | Critical exactly from magnitude 6.0, High on [5.0, 6.0), Medium on [4.0, 5.0), Low below 4.0 |
| QuakeMapper.MagToRiskMonotone | Earthquake/earthquake_mapper.py:22-31 | a larger magnitude never gives a lower risk rank |
| QuakeMapper.GenerateMap | Earthquake/earthquake_mapper.py:44-61 | the loop builds the map that the specification function gives for the events in order |
| QuakeMapper.MapKeys | Earthquake/earthquake_mapper.py:46-61 | a key is in the map exactly when some event with latitude, longitude and magnitude falls on it |
| QuakeMapper.MapHighest | Earthquake/earthquake_mapper.py:57-61 | each key holds the highest risk level among the complete events at that key |
| QuakeMapper.HighestUnique | Earthquake/earthquake_mapper.py:57-59 | the highest level at a key is unique, since ranks are distinct |
| QuakeMapper.OrderIndependent | Earthquake/earthquake_mapper.py:46-61 | the level stored at every key does not depend on the order of the events |
| QuakeMapper.MapUnique | Earthquake/earthquake_mapper.py:44-61 | the map's keys are distinct |
| FloodMapper.PeakPoints | Flood/flood_mapper.py:33-41 | the historical peak adds 0 to 4 points |
| FloodMapper.TrendPoints | Flood/flood_mapper.py:43-51 | the trend adds between -1 and 3 points |
| FloodMapper.DayPoints | Flood/flood_mapper.py:53-59 | forecast risk days add 0 to 3 points |
| FloodMapper.SpikePoints | Flood/flood_mapper.py:61-65 | spikes add 0 to 2 points |
| FloodMapper.Band | Flood/flood_mapper.py:67-74 | Critical exactly from score 9, High on [6, 9), Medium on [3, 6), Low below 3 |
| FloodMapper.Score | Flood/flood_mapper.py:31-65 | the accumulated score lies between -1 and 12, and a summary with none of the keys scores 0 |
| FloodMapper.DischargeToRisk | Flood/flood_mapper.py:21-74 | the level is Critical exactly from score 9, High on [6, 9), Medium on [3, 6) and Low below 3 |
| FloodMapper.ScoreBounds | Flood/flood_mapper.py:31-65 | the score lies between -1 and 12, and is negative only through a falling trend |
| FloodMapper.EmptyIsLow | Flood/flood_mapper.py:21-74 | a summary with none of the keys is Low |
| FloodMapper.BandMonotone | Flood/flood_mapper.py:67-74 | a higher score never gives a lower band |
| FloodMapper.PeakMonotone | Flood/flood_mapper.py:33-41 | raising the historical peak never lowers the risk |
| FloodMapper.DaysMonotone | Flood/flood_mapper.py:53-59 | more forecast risk days never lower the risk |
| FloodMapper.SpikesMonotone | Flood/flood_mapper.py:61-65 | more spikes never lower the risk |
| FloodMapper.GenerateMap | Flood/flood_mapper.py:77-106 | with both coordinates present, the loaded map gets this summary's level under the location's key and keeps every other key; otherwise it is unchanged |
| QuakePreprocessor.Timed | Earthquake/earthquake_preprocessor.py:55-65 | the filter keeps at most the input's records |
| QuakePreprocessor.ParseTimes | Earthquake/earthquake_preprocessor.py:55-65 | the parse loop and filter keep, in input order, exactly the records whose time parses |
| QuakePreprocessor.NewestFirstOrder | Earthquake/earthquake_preprocessor.py:66 | after the sort each timestamp is at least the next one, so no gap is negative, and the records are a permutation of the parsed ones |
| QuakePreprocessor.NewestOldest | Earthquake/earthquake_preprocessor.py:89-90 | in a newest-first list the first record is the newest and the last the oldest |
| QuakePreprocessor.Present | Earthquake/earthquake_preprocessor.py:76-79 | a column keeps at most one value per record |
| QuakePreprocessor.StatsOf | Earthquake/earthquake_preprocessor.py:81-86 | minimum, maximum and mean are each absent exactly when the column is empty |
| QuakePreprocessor.StatsOrdered | Earthquake/earthquake_preprocessor.py:81-86 | before rounding, the mean of a non-empty column lies between its minimum and maximum |
| QuakePreprocessor.BucketOf | Earthquake/earthquake_preprocessor.py:128-138 | the five buckets are below 3, [3, 4), [4, 5), [5, 6) and 6 or more, and every magnitude falls in exactly one |
| QuakePreprocessor.Bump | Earthquake/earthquake_preprocessor.py:130-138 | one bucket gains one and the others keep their counts |
| QuakePreprocessor.CountBuckets | Earthquake/earthquake_preprocessor.py:127-138 | the bucket loop computes the specification counts |
| QuakePreprocessor.BucketsCount | Earthquake/earthquake_preprocessor.py:127-138 | each bucket counts exactly the magnitudes in its band, and the five counts add up to the number of magnitudes |
| QuakePreprocessor.FirstHalf | Earthquake/earthquake_preprocessor.py:97 | a record is in the first half exactly when it is at or before the midpoint |
| QuakePreprocessor.SecondHalf | Earthquake/earthquake_preprocessor.py:98 | a record is in the second half exactly when it is after the midpoint |
| QuakePreprocessor.HalvesPartition | Earthquake/earthquake_preprocessor.py:96-98 | the two halves split the records: their lengths add up and together they are a permutation of the records |
| QuakePreprocessor.SpanDays | Earthquake/earthquake_preprocessor.py:89-91 | the span in days is the newest minus the oldest timestamp over 86400, but never below 0.01, so the frequencies can divide by it |
| QuakePreprocessor.AtLeast | Earthquake/earthquake_preprocessor.py:91 | `max(x, floor)` is at least both and equals one of them |
| QuakePreprocessor.AccelRatio | Earthquake/earthquake_preprocessor.py:99-106 | the ratio is defined exactly when the first half is non-empty |
| QuakePreprocessor.TrendOf | Earthquake/earthquake_preprocessor.py:108-116 | "unknown" exactly without a ratio; otherwise "accelerating" exactly above 1.5, "decelerating" exactly below 0.67, and "stable" in between |
| QuakePreprocessor.RatioDefined | Earthquake/earthquake_preprocessor.py:89-116 | for a newest-first list the oldest record is in the first half, so the ratio is always defined and the trend is never "unknown" |
| QuakePreprocessor.RateSign | Earthquake/earthquake_preprocessor.py:99-103 | over a positive span, the early frequency is positive exactly when the first half has a record |
| QuakePreprocessor.GapsOf | Earthquake/earthquake_preprocessor.py:119-122 | `gaps_hours` has one entry per consecutive pair, the `i`-th being the hours from record `i + 1` to record `i` rounded to 0.1 |
| QuakePreprocessor.GapsNonNegative | Earthquake/earthquake_preprocessor.py:66-124 | newest first, and with a rounding that keeps non-negative values non-negative, no gap is negative, and neither is `min_gap_hours` |
| QuakePreprocessor.Gaps | Earthquake/earthquake_preprocessor.py:119-122 | the gap loop computes `gaps_hours`: one gap per consecutive pair, each the hours between them rounded to 0.1 |
| QuakePreprocessor.Spread | Earthquake/earthquake_preprocessor.py:143-144 | a column of at most one value has spread 0 |
| QuakePreprocessor.RoundTruthy | Earthquake/earthquake_preprocessor.py:182-184 | a rounded field is null exactly when it was null or zero |
| QuakePreprocessor.Condense | Earthquake/earthquake_preprocessor.py:178-187 | one condensed event per record, in the same order |
| QuakePreprocessor.MapperEvents | Earthquake/earthquake_preprocessor.py:193-194 | the mapper reads one event per condensed event |
| QuakePreprocessor.Preprocess | Earthquake/earthquake_preprocessor.py:33-201 | no records, or none with a time, give the short report with its message; otherwise the summary counts the parsed records, buckets and summarises the magnitudes and depths, classifies the trend and the clustering, and the events follow the records newest first, one each, with the coordinate map built from them; the summary carries the location, the span rounded to 0.1 day, the events per day over that span rounded to 0.01, the mean gap rounded to 0.1 hour and the smallest gap (both null for a single record), and the mean latitude and longitude rounded to 4 places (null without coordinates) |
| FloodPreprocessor.Historical | Flood/flood_preprocessor.py:49 | every day kept is a past day |
| FloodPreprocessor.Forecast | Flood/flood_preprocessor.py:50 | every day kept is a forecast day |
| FloodPreprocessor.Partition | Flood/flood_preprocessor.py:49-50 | the past days and the forecast days together are exactly the days, as a multiset |
| FloodPreprocessor.PartitionStep | Flood/flood_preprocessor.py:49-50 | one more day lands in exactly one of the two lists |
| FloodPreprocessor.PartitionCount | Flood/flood_preprocessor.py:98-104 | the past and forecast day counts add up to the total day count |
| FloodPreprocessor.Values | Flood/flood_preprocessor.py:53-58 | the present readings of a column are never more than the days |
| FloodPreprocessor.StatsOf | Flood/flood_preprocessor.py:139-149 | no values give four nulls and any values give four present statistics |
| FloodPreprocessor.StatsOrdered | Flood/flood_preprocessor.py:143-147 | the unrounded mean of a non-empty list lies between its minimum and its maximum |
| FloodPreprocessor.Direction | Flood/flood_preprocessor.py:171-180 | the five direction labels correspond exactly to the five bands of the daily percentage: above 5, above 1, below -5, below -1, otherwise stable |
| FloodPreprocessor.SumOnLine | Flood/flood_preprocessor.py:159 | values on the line `a + b * i` add up to `n * a + b * n * (n - 1) / 2` |
| FloodPreprocessor.CovarianceOnLine | Flood/flood_preprocessor.py:161 | on such a line the centred products add up to `b` times the centred squares |
| FloodPreprocessor.SpreadAtLeastFirst | Flood/flood_preprocessor.py:162 | the centred squares add up to at least the first one |
| FloodPreprocessor.LinearSlope | Flood/flood_preprocessor.py:157-164 | the least-squares slope of values on the line `a + b * i` is exactly `b` |
| FloodPreprocessor.FlatIsStable | Flood/flood_preprocessor.py:157-180 | a flat series of three or more values has slope and percentage 0 and is "stable" |
| FloodPreprocessor.DetectTrend | Flood/flood_preprocessor.py:152-186 | the trend is "insufficient data" exactly when there are fewer than three values; otherwise its direction classifies `PctPerDay`, and its slope and percentage are `TrendSlope` and `PctPerDay` rounded to two places |
| FloodPreprocessor.LastSeven | Flood/flood_preprocessor.py:63 | the window is the last seven readings, or all of them when there are fewer than seven |
| FloodPreprocessor.DetectSpikes | Flood/flood_preprocessor.py:67-79 | the loop collects, in order, one spike for each index whose change from a positive previous value exceeds 30% |
| FloodPreprocessor.SpikesCount | Flood/flood_preprocessor.py:68-79 | the number of spikes equals the number of indices that are spikes |
| FloodPreprocessor.SpikesComplete | Flood/flood_preprocessor.py:68-79 | every spike index is recorded |
| FloodPreprocessor.SpikesSound | Flood/flood_preprocessor.py:68-79 | every recorded spike comes from a spike index |
| FloodPreprocessor.ValueDatesAligned | Flood/flood_preprocessor.py:53 | each present reading is paired with the date of the day it was read on |
| FloodPreprocessor.SpikesDated | Flood/flood_preprocessor.py:75-77 | in the corrected list, each spike is dated by the day whose reading is its `to` value |
| FloodPreprocessor.SpikeDateShifted | Flood/flood_preprocessor.py:68-79 | as written, a past day without a reading shifts the dates: the spike from 100 to 200 is dated by the day before the reading |
| FloodPreprocessor.DetectRiskDays | Flood/flood_preprocessor.py:84-92 | the loop collects, in order, one entry per forecast day whose maximum exceeds 120% of a positive historical peak |
| FloodPreprocessor.RiskDaysExact | Flood/flood_preprocessor.py:84-92 | a forecast day is recorded if and only if it is a risk day, and there are never more entries than forecast days |
| FloodPreprocessor.EventOf | Flood/flood_preprocessor.py:118-126 | an event carries a mean/max/min projection exactly when its day is a forecast day |
| FloodPreprocessor.Condense | Flood/flood_preprocessor.py:115-127 | one event per day, in order |
| FloodPreprocessor.Take | Flood/flood_preprocessor.py:110-112 | `[:5]`: a prefix of at most five items, the whole list when it is short |
| FloodPreprocessor.Preprocess | Flood/flood_preprocessor.py:27-136 | an error or no days give exactly the short report with the no-data message; otherwise the summary counts past and forecast days, holds the three statistics, the trend of the last seven readings, every spike (dated by its `to` reading, as the corrected `Spikes` does) and risk day counted with the first five of each kept, and one event per day |
| FloodPreprocessor.PromptTrendAsWritten | Flood/flood_preprocessor.py:204 | as written, the prompt's trend line raises exactly for the insufficient-data trend, which has no `slope_m3s_per_day` |
| FloodPreprocessor.PromptTrend | Flood/flood_preprocessor.py:155 | the intended trend line reports the full trend's slope and percentage, and 0 for the insufficient-data trend |
| FloodPreprocessor.ShortHistoryRaises | Flood/flood_preprocessor.py:130 | as written, a report raises in the prompt exactly when its past days hold fewer than three readings |
| FloodPreprocessor.OneDayRaises | Flood/flood_preprocessor.py:130 | a report with a single past reading raises `KeyError` as written |
| FloodPreprocessor.ShortHistoryReported | Flood/flood_preprocessor.py:155 | the intended trend line reports slope 0 for every short history |
| VolcanoPipeline.ThreatScore | Volcano/volcano_pipeline.py:34-41 | a threat level scores between 0 and 5 |
| VolcanoPipeline.ThreatScorePositive | Volcano/volcano_pipeline.py:34-41 | a label scores above 0 if and only if it is one of the five assessed threat levels |
| VolcanoPipeline.AlertTable | Volcano/volcano_pipeline.py:43-50 | an alert key scores between 0 and 4 |
| VolcanoPipeline.ColorTable | Volcano/volcano_pipeline.py:52-59 | a colour key scores between 0 and 4 |
| VolcanoPipeline.Or | Volcano/volcano_pipeline.py:220-221 | `a or b` is `a` when it is true and `b` otherwise |
| VolcanoPipeline.AlertScore | Volcano/volcano_pipeline.py:224-226 | the alert score of a level lies in 0..4 |
| VolcanoPipeline.ColorScore | Volcano/volcano_pipeline.py:227-229 | the colour score of a code lies in 0..4 |
| VolcanoPipeline.ScoresIgnoreCase | Volcano/volcano_pipeline.py:224-229 | the alert and colour scores of a string equal those of its upper-case form |
| VolcanoPipeline.EnrichVolcano | Volcano/volcano_pipeline.py:168-231 | the record keeps the number and coordinates; it is monitored if and only if its number is in the monitored set; its threat score is the table's score of its label; with no elevated entry the alert and colour are null and score 0, otherwise they are the entry's snake-case field or, when that is false, its camel-case one, and score by the table; all scores are in range and the seismic fields start empty |
| VolcanoPipeline.Mags | Volcano/volcano_pipeline.py:250-251 | the non-null magnitudes are at most the earthquakes |
| VolcanoPipeline.Depths | Volcano/volcano_pipeline.py:252-253 | the non-null depths are at most the earthquakes |
| VolcanoPipeline.ShallowBound | Volcano/volcano_pipeline.py:252-255 | the shallow count is at most the number of depths, which is at most the number of earthquakes |
| VolcanoPipeline.EnrichWithSeismicity | Volcano/volcano_pipeline.py:234-263 | the loop computes the seismic record of the earthquakes, and leaves the record unchanged for none |
| VolcanoPipeline.SeismicFacts | Volcano/volcano_pipeline.py:236-261 | for some earthquakes the count is their number, the shallow count is at most the count, the maximum magnitude is the largest non-null magnitude (0.0 when there is none), and no other field changes |
| VolcanoPipeline.Cap | Volcano/volcano_pipeline.py:284-286 | `min(x, 1.0)` is at most both arguments and equal to one of them |
| VolcanoPipeline.ComputeRiskScore | Volcano/volcano_pipeline.py:266-298 | only the composite score changes |
| VolcanoPipeline.RawScoreBounds | Volcano/volcano_pipeline.py:279-295 | with scores within their tables and non-negative seismic values, the composite lies in [0, 100] |
| VolcanoPipeline.NegativeMagnitudeScore | Volcano/volcano_pipeline.py:279-295 | with nothing else scoring, a negative maximum magnitude makes the composite negative: it is that magnitude divided by 6, times 10 |
| VolcanoPipeline.RawScoreMonotone | Volcano/volcano_pipeline.py:279-295 | the composite never falls when any score or count rises |
| VolcanoPipeline.CandidatesMembers | Volcano/volcano_pipeline.py:429-435 | a candidate is exactly a record with non-zero coordinates, paired with its distance |
| VolcanoPipeline.Within | Volcano/volcano_pipeline.py:438 | every kept entry lies within the radius, and it keeps no more entries than it is given |
| VolcanoPipeline.WithinMembers | Volcano/volcano_pipeline.py:438 | the filter keeps exactly the entries within the radius |
| VolcanoPipeline.WithinSorted | Volcano/volcano_pipeline.py:437-438 | filtering a distance-sorted list keeps it sorted |
| VolcanoPipeline.GetNearbyVolcanoes | Volcano/volcano_pipeline.py:427-440 | the loop, sort, filter and slice compute the nearby list |
| VolcanoPipeline.NearbySorted | Volcano/volcano_pipeline.py:427-440 | the nearby list is sorted by distance, lies within the radius and has at most `top_n` entries |
| VolcanoPipeline.NearbyMembers | Volcano/volcano_pipeline.py:429-440 | every nearby entry is an input record with coordinates, at its distance from the user |
| VolcanoPipeline.NearbyComplete | Volcano/volcano_pipeline.py:437-440 | a candidate within the radius is left out only when `top_n` entries no farther away were kept |
| VolcanoApi.Enrich | Volcano/volcano_api.py:106-135 | the record keeps the number and coordinates; the threat score is the table's score of the label, 0 when missing or unknown; a record is monitored if and only if its number is in the monitored set; without an elevated entry the alert and colour are null and score 0; with one they are the snake-case field or else the camel-case one, scored by the upper-case table lookups |
| VolcanoApi.EnrichAgrees | Volcano/volcano_api.py:106-135 | the client enriches every volcano exactly as the pipeline does |
| VolcanoApi.AddSeismicity | Volcano/volcano_api.py:137-153 | the loop computes the client's seismicity outcome, including the failure on a null depth |
| VolcanoApi.SeismicityAgrees | Volcano/volcano_api.py:137-153 | the step fails if and only if some depth is null; otherwise the count is the number of earthquakes and bounds the shallow count, and for some earthquakes it agrees with the pipeline's step |
| VolcanoApi.ComputeRisk | Volcano/volcano_api.py:155-165 | only the composite score changes |
| VolcanoApi.RiskAgrees | Volcano/volcano_api.py:155-165 | the client's weighted formula is the pipeline's, and lies in [0, 100] for in-range records |
| VolcanoApi.MonitoredSet | Volcano/volcano_api.py:74 | a number is in the monitored set if and only if some monitored entry has it, a missing number counting as "" |
| VolcanoApi.ElevatedMapHas | Volcano/volcano_api.py:75 | a number is a key of the elevated map if and only if some elevated entry has it |
| VolcanoApi.ElevatedMapLast | Volcano/volcano_api.py:75 | a mapped number leads to the last entry that has it |
| VolcanoApi.RefreshVolcano | Volcano/volcano_api.py:78-84 | the loop body enriches a volcano, adds seismicity only when seismicity is asked for and the volcano is monitored with non-zero coordinates, and scores it |
| VolcanoApi.RefreshOne | Volcano/volcano_api.py:78-84 | refreshing one volcano fails only with the null-depth error, and otherwise keeps the number and scores of its enrichment |
| VolcanoApi.RefreshStep | Volcano/volcano_api.py:77-84 | one more volcano appends one record, or stops the loop with its error |
| VolcanoApi.RefreshFailureSticks | Volcano/volcano_api.py:77-84 | once a prefix of the volcanoes fails, the whole loop fails with the same error |
| VolcanoApi.RefreshAllShape | Volcano/volcano_api.py:77-84 | the loop fails only with the null-depth error, and otherwise gives one record per volcano, in order, each keeping its enrichment's number and scores |
| VolcanoApi.RefreshedFacts | Volcano/volcano_api.py:67-90 | refreshing fails only with the null-depth error; otherwise it gives one record per volcano, sorted by descending composite score, a permutation of the loop's records |
| VolcanoApi.VolcanoClient.constructor | Volcano/volcano_api.py:47-57 | the client starts with the cached list when there is one, and an empty list otherwise |
| VolcanoApi.VolcanoClient.RefreshData | Volcano/volcano_api.py:67-90 | the stored list becomes the refreshed list on success and stays as it was when an exception escapes |
| VolcanoApi.VolcanoClient.Nearby | Volcano/volcano_api.py:178-188 | the result is the records with non-zero coordinates, sorted by distance, within the radius, at most `top_n` of them |
| VolcanoApi.Risks | Volcano/volcano_api.py:211 | the composite scores of the entries, one per entry |
| VolcanoApi.MaxRisk | Volcano/volcano_api.py:211 | 0 for no entries, and otherwise the largest composite score, reached by some entry |
| VolcanoApi.ElevatedOf | Volcano/volcano_api.py:212 | every entry kept has an alert score of at least 2 |
| VolcanoApi.ElevatedMembers | Volcano/volcano_api.py:212 | the elevated list holds exactly the entries with an alert score of at least 2 |
| VolcanoApi.ReportAt | Volcano/volcano_api.py:206-214 | the report holds the ten nearest volcanoes within the radius, their count, the first one or null when there is none, and the largest composite score or 0 |
| VolcanoApi.ReportFacts | Volcano/volcano_api.py:206-214 | a report's list is sorted by distance and has at most ten entries, and its elevated list holds exactly those with an alert score of at least 2 |
| VolcanoApi.VolcanoClient.GetRisk | Volcano/volcano_api.py:190-214 | one string argument that is not a preset gives the unknown-location error, and one that is gives that preset's coordinates; two arguments raise exactly when one is not a number, and otherwise are the coordinates; any other call gives the usage error; a report is the report at its coordinates |
| Validate.Validate | main.py:177-250 | the checks raise exactly when the threat level is a list or object or a ranked list or timeline has no length; otherwise there are seven check records in order, one per required field, then the threat level with its value, the ranked calamities with their count (passing at one or more) and the timeline with its count (passing at two or more); the status is "failed" if and only if a required field is missing or the level is not one of the four, so the last two checks never change it |
| Context.Dedup | context_manager.py:69-72 | the filtered list is never longer than the threats |
| Context.DedupMembers | context_manager.py:69-72 | the filter keeps exactly the threats whose type or location differ |
| Context.DedupConcat | context_manager.py:69-72 | the filter keeps the relative order of the threats it keeps |
| Context.BaseUnique | context_manager.py:75-86 | the entry's ten fixed keys are distinct |
| Context.BuildEntry | context_manager.py:75-98 | the loop builds the entry: the fixed fields, the copied prediction fields, then the metadata |
| Context.CopyUntouched | context_manager.py:92-94 | a skipped key, or one the prediction lacks, keeps its value in the entry |
| Context.CopyLast | context_manager.py:92-94 | a copied key holds the value of its last occurrence in the prediction |
| Context.CopyKeeps | context_manager.py:92-94 | copying never removes a key from the entry |
| Context.CopyAbsent | context_manager.py:92-94 | a key neither the entry nor the copied prediction fields have stays absent |
| Context.EntryStandard | context_manager.py:79-91 | the seven standard fields hold the prediction's values, null where the prediction lacks one |
| Context.EntryMatches | context_manager.py:75-100 | with the identity keys skipped, the entry matches the type and location it was saved under |
| Context.EntryCopies | context_manager.py:89-94 | every other prediction key is copied with its value |
| Context.EntryOmits | context_manager.py:89-94 | `raw_response`, `model` and `error` never reach the entry |
| Context.EntryMetadata | context_manager.py:97-98 | with a truthy `extra` the entry's metadata is `extra`; otherwise there is none unless the prediction has one |
| Context.EntryKeys | context_manager.py:75-98 | the entry has a type and a location whatever the prediction holds |
| Context.AsWrittenKeepsDuplicates | context_manager.py:75-100 | as written, a prediction with its own `location` overwrites the entry's, so saving twice under the same type and location keeps two entries |
| Context.SavedUnique | context_manager.py:68-100 | after saving, exactly one threat has the given type and location, and it is the last |
| Context.ThreatContext.constructor | context_manager.py:65-66 | the store holds the threats and stamp read from the file |
| Context.ThreatContext.SaveThreat | context_manager.py:42-101 | the threats become the non-matching threats in their order followed by the new entry, with the identity keys protected, and the stamp becomes the time of saving |
| Context.ThreatContext.SaveThreatAsWritten | context_manager.py:42-101 | as written: the same, except that prediction keys may overwrite the entry's type, location and timestamp |
| Context.ThreatContext.ThreatsByType | context_manager.py:116-118 | exactly the stored threats of that type |
| Context.ThreatContext.ClearThreats | context_manager.py:121-125 | the threats become empty and the stamp the time of clearing |
| Context.OfType | context_manager.py:118 | a threat is kept if and only if it has that type |
| Numeric.Max | Flood/flood_preprocessor.py:146 | `max(values)` of a non-empty list is one of its values and at least every value |
| Numeric.Min | Flood/flood_preprocessor.py:145 | `min(values)` of a non-empty list is one of its values and at most every value |
| Numeric.Std | Flood/flood_preprocessor.py:241-248 | fewer than two values have standard deviation 0; the earthquake preprocessor's `_std` (Earthquake/earthquake_preprocessor.py:247-254) is the same function |
| Numeric.SquaresNonNegative | Flood/flood_preprocessor.py:247 | the sum of squared deviations is never negative |
| Numeric.VarianceNonNegative | Flood/flood_preprocessor.py:246-248 | for two or more values the variance passed to `math.sqrt` is never negative, so `_std` never raises |
| Text.Lower | mitigation/city_infrastructure_network.py:633 | `lower()` keeps the length and lowers each character, ASCII letters only |
| Text.Upper | Volcano/volcano_pipeline.py:225-228 | `upper()` keeps the length and raises each character, ASCII letters only |
| Text.Strip | mitigation/city_infrastructure_network.py:633 | `strip()` is `s` from its first to its last non-whitespace character: a piece of `s` with only whitespace before and after it and none at either of its ends, the whole of a string without whitespace |
| Text.TrimLeft | mitigation/city_infrastructure_network.py:633 | `lstrip()` cuts off only whitespace and leaves no leading whitespace |
| Text.TrimRight | mitigation/city_infrastructure_network.py:633 | `rstrip()` cuts off only whitespace and leaves no trailing whitespace |
| Text.StripEmpty | mitigation/city_infrastructure_network.py:633 | a string strips to nothing exactly when it is all whitespace |
| Text.SplitWords | mitigation/city_infrastructure_network.py:643-645 | `split()` yields non-empty runs of non-whitespace characters which, written one after another, are exactly the non-whitespace characters of `s` in order |
| Text.WordsFacts | mitigation/city_infrastructure_network.py:643-645 | every word of the split is non-empty and blank-free, and the words concatenate to the non-whitespace characters |
| Text.SplitWordsWord | mitigation/city_infrastructure_network.py:643-645 | a non-empty string without whitespace splits into itself alone |
| Text.SplitWordsSep | mitigation/city_infrastructure_network.py:643-645 | a whitespace character is a word boundary: `split()` of `a + c + b` is the words of `a` followed by the words of `b`, so no word spans `c` |
| Text.WordsSep | mitigation/city_infrastructure_network.py:643-645 | the word list of `a + c + b` with `c` whitespace is the word list of `a` followed by that of `b` |
| Text.TrimLeftBlank | mitigation/city_infrastructure_network.py:643-645 | leading whitespace before `x` is cut away entirely, leaving what `x` leaves |
| Text.TrimLeftKeep | mitigation/city_infrastructure_network.py:643-645 | once a non-whitespace character is reached, what follows is kept unchanged |
| Text.TakeWordSep | mitigation/city_infrastructure_network.py:643-645 | a word stops at the first whitespace character |
| Text.NonSpaceAppend | mitigation/city_infrastructure_network.py:643-645 | the non-whitespace characters of a concatenation are those of each part |
| Text.SplitConcat | mitigation/city_infrastructure_network.py:643-645 | the first word and the words of the rest give back the non-whitespace characters |
| Text.NonSpaceTrimmed | mitigation/city_infrastructure_network.py:643-645 | cutting leading whitespace keeps the non-whitespace characters |
| Text.NonSpaceWordFirst | mitigation/city_infrastructure_network.py:643-645 | the non-whitespace characters are the first word and those after it |
| Text.NatToString | mitigation/city_infrastructure_network.py:695 | `str(n)` of a natural number is a non-empty string of decimal digits |
| Text.DigitChar | mitigation/city_infrastructure_network.py:695 | the digit character of `d` stands for `d` |
| Text.NatToStringValue | mitigation/city_infrastructure_network.py:695 | reading `str(n)` back as a decimal numeral gives `n` |
| Text.NatToStringInjective | mitigation/city_infrastructure_network.py:695 | different numbers have different decimal strings, so the default labels of different ids differ |
| Assoc.Keys | mitigation/server.py:82-84 | the keys of a dictionary, one per entry, in insertion order |
| Assoc.Get | Earthquake/earthquake_mapper.py:57-58 | a lookup finds nothing exactly when the key is absent |
| Assoc.Put | Earthquake/earthquake_mapper.py:59-61 | after `d[k] = v`, `k` holds `v` and every other key holds what it held |
| Assoc.PutShape | Earthquake/earthquake_mapper.py:59-61 | `d[k] = v` on a present key keeps every key in its position and changes only that value; on a new key it appends the pair |
| Assoc.PutUnique | Earthquake/earthquake_mapper.py:59-61 | `d[k] = v` keeps the keys distinct |
| Assoc.PutKeys | Earthquake/earthquake_mapper.py:59-61 | `d[k] = v` adds `k` to the keys and keeps every other key |
| Assoc.GetUnique | Earthquake/earthquake_mapper.py:57-58 | in a dictionary with distinct keys, a lookup finds the value stored with the key |

## Left out

- Network access is left out, because it is I/O outside the deterministic core. This covers:
  - OpenStreetMap geocoding and the Overpass fetch;
  - the USGS volcano and earthquake requests;
  - the flood and earthquake feeds.
  The earthquake lookups of the volcano modules are a parameter.
- Language-model calls and prompt construction are left out, because they are calls into services the model cannot see. This covers `_ask_groq`, `build_groq_prompt`, `call_groq`, `_build_prompt` of both preprocessors, and `VolcanoClient.ask` with its context builder.
- File reads and writes are left out, because they are I/O. This covers the JSON and CSV caches, the validation result file, `export_for_globe` and console output. The threat store reads and writes its file around each operation; the model keeps the file's contents in the `ThreatContext` object. A context file missing its `threats` key, or holding a threat without `type` or `location`, would raise `KeyError`; the model requires well-formed stored threats (`ThreatContext.Valid`).
- `get_all_threats` is not a separate member; `ThreatsByType` reads the stored list directly.
- Floating-point arithmetic is left out. Dafny reals are exact; `round`, `sqrt`, `math.radians` and the haversine formula are parameters, so rounding-dependent equalities are stated about the rounded value the parameter returns.
- Procedural city generation, the Delaunay/KDTree road mesh, the graph builder and `build_node_positions` are not part of this model. They depend on hashing, NumPy's random generator and SciPy. The graph is an input.
- Density, average shortest path length and betweenness centrality are networkx floating-point results; they enter the statistics as given values. Connectivity is decided by the model's own connected components, computed by flood fill.
- Iteration orders the source inherits from Python sets and networkx are parameters or fixed choices:
  - the order of `G.edges()` and `G.neighbors()`;
  - the order of the nodes within a connected component, which is a Python set.
- Server.Repair: among equally close pairs of two components, the model proves that a closest pair is joined. It does not fix which of them set iteration meets first.
- Server.ApplyOptimizations: an added emergency edge is stated to weigh the distance between its endpoints in one orientation or the other (`EmergencyBetween`), because the distance parameter is not assumed symmetric.
- JSON inputs are shapes, not full JSON. `Validate` sees only the shape of each value (string, list or object with its length, scalar). An optional field is an `Option`, and the model treats an explicit `null` like a missing key. A null historical maximum in the flood summary agrees with the source, because its `or 0` maps it to 0. The source tells null from missing in the three places below.
- FloodMapper.DischargeToRisk: a null `direction` in the trend costs a point in the source (`None` is not "stable"), and a null `forecast_risk_days` or `spikes_detected` raises `TypeError` at the comparison; the model scores all three as missing.
- VolcanoPipeline.EnrichVolcano: a null `vnum` or `nvews_threat` is stored as null by the source; the model stores "" and "Unassigned".
- VolcanoPipeline.EnrichWithSeismicity and VolcanoApi.AddSeismicity: null earthquake `coordinates` raise `TypeError` at `len(...)` in the source; the model reads them as the default `[0, 0, 0]`.
- Optional fields the core copies without reading are left out of the records, because no property depends on them. This covers links, observatory names, elevation, image URLs and the flood summary's `grid_coords`.
- `hist_avg` of the flood preprocessor is left out, because it is computed and never used.
- FloodPreprocessor.Preprocess: the report dates each spike by the day of its `to` reading, as the corrected `Spikes` does. The source dates it by `historical[i]["date"]`, which is wrong once a day has no reading (`SpikesAsWritten`, see Findings).
- FloodPreprocessor.DetectTrend: the insufficient-data result carries no slope field. The source returns `"slope": 0` there, under a different key from the full result's `slope_m3s_per_day`; `PromptTrend` reports that 0, and `PromptTrendAsWritten` shows that the prompt as written cannot read it (see Findings).
- FloodPreprocessor.Preprocess: the model returns the report even when the past days hold fewer than three readings. The source raises `KeyError` there, in `_build_prompt` (flood_preprocessor.py:204 via :130); `ShortHistoryRaises` states exactly when, and the prompt text itself is not modelled.
- Timezone handling of `datetime.fromisoformat` is left out, because timestamps reach the model already parsed into seconds by a parameter.
- Case folding covers ASCII letters only, because Python's full Unicode case mapping is outside a model of strings as character sequences.
- Text.Strip and Text.SplitWords: whitespace is the ASCII set Python's `str.isspace` accepts (space, tab, line feed, carriage return, vertical tab, form feed, and the separators 0x1C to 0x1F). Python's `strip()` and `split()` also split on Unicode whitespace such as the no-break space, which the model does not.
- VolcanoPipeline.GetNearbyVolcanoes and VolcanoApi.VolcanoClient.Nearby take `top_n` as a natural number; a negative Python slice bound is not modelled.
- The pipeline's `run_full_pipeline`, `location_risk_lookup` and reporting functions are left out, because they are orchestration and printing around the modelled steps.
- Context.ThreatContext.SaveThreat: the entry's `timestamp` and the context's `generated_at` are one `now` parameter. The source reads the clock twice (context_manager.py:78 and :101), so its two stamps can differ by the time between the reads.
- VolcanoPipeline.RawScoreBounds: the lower bound 0 needs a non-negative maximum magnitude. The earthquake feed reports negative magnitudes for very small events, and then the composite can be negative (`NegativeMagnitudeScore`).

## Findings

| source | as written | input that shows it | evidently intended | confidence | as-written member | corrected member |
|---|---|---|---|---|---|---|
| Flood/flood_preprocessor.py:68-79 | a spike at position `i` of the non-null discharge values is dated `historical[i]["date"]`, indexing the past days that include those without a reading | past days d0 (no discharge), d1 = 100, d2 = 200: the 100% rise is dated d1 | the spike is dated by the day of its `to` reading, d2 | not executed | FloodPreprocessor.SpikesAsWritten, FloodPreprocessor.SpikeDateShifted | FloodPreprocessor.Spikes, FloodPreprocessor.SpikesDated |
| context_manager.py:89-94 | the skip set leaves out `type`, `location` and `timestamp`, so a prediction carrying one of those keys overwrites the entry's identity | a prediction `{"location": "elsewhere"}` saved twice for ("earthquake", "San Francisco"): neither entry matches, so both are kept | an entry keeps the type and location it is saved under, and saving again replaces it | not executed | Context.ThreatContext.SaveThreatAsWritten, Context.AsWrittenKeepsDuplicates | Context.ThreatContext.SaveThreat, Context.SavedUnique |
| Flood/flood_preprocessor.py:152-204 | `_detect_trend` returns `{"direction": "insufficient_data", "slope": 0}` for fewer than three values, and `_build_prompt` then reads `t['slope_m3s_per_day']`, raising `KeyError` | past days with a single reading, 100 m³/s, and no error | the short-history trend is reported (slope 0) and the summary is returned | not executed | FloodPreprocessor.PromptTrendAsWritten, FloodPreprocessor.ShortHistoryRaises, FloodPreprocessor.OneDayRaises | FloodPreprocessor.PromptTrend, FloodPreprocessor.ShortHistoryReported, FloodPreprocessor.Preprocess |
