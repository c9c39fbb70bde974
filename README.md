# PR knowledge-graph RAG: a Dafny model of its core

The system ingests public-relations texts and turns them into a knowledge graph. It then answers questions from that graph with a language model. This project models its deterministic core in Dafny and proves what that core promises:

- the SPO (subject–predicate–object) triple extractor: word-window chunking, recovery and validation of the model's reply, per-chunk aggregation, and normalization with first-wins deduplication;
- the in-memory graph builder: implicit node creation, last-write-wins edge attributes, depth-bounded undirected expansion, induced subgraphs, breadth-first related-entity search, degree ranking, context facts, export and clearing;
- the graph RAG and the integrated system: the question–entity matcher, entity expansion, context assembly, result shaping, and the session states nothing built → built → cleared;
- the line parsers for entity and relationship replies, and the SPO-to-entity/relationship converters;
- the `Section:` text-to-dict converter, the preprocessing line tagger, and the chunk-metadata classifiers and chunk ids;
- the agent merger's conflict detection, merge plan, renaming, import section and summary;
- the unified system's mode router, enterprise-profile parser and plan generation;
- the enhanced RAG's context formatter, answer short-circuit, Cypher fallback and entity-relationship shaping.

Code that changes state step by step is modelled as methods with loops, for example `chunk_text`, the normalizer, the builder class, the line scanners and the context loops. Each such method is proved equal to a specification function. The properties are then proved about that function as lemmas. The language model, `json.loads`, `float()`, `str()`, the text splitter, the environment and the stores are function-typed parameters. Every property holds whatever those parameters return.

| file | module | models |
|---|---|---|
| wrappers.dfy | Wrappers | Option and Result (a raised exception is an `Err`) |
| decimals.dfy | Decimals | floats as the decimals they are written as |
| strs.dfy | Strs | Python's `split`, `strip`, `join`, `lower`, `upper`, `replace`, `in` on strings, and zero padding |
| json.dfy | Json | JSON values and dicts as insertion-ordered key/value lists |
| spo_config.dfy | SpoConfig | the SPO extractor's constructor |
| spo_chunks.dfy, spo_replies.dfy, spo_normal.dfy | SpoChunks, SpoReplies, SpoNormal | the specification of chunking, reply recovery and normalization |
| spo_extractor.dfy | SpoExtractor | the extractor's loops |
| kg_graph.dfy, kg_triples.dfy, kg_reach.dfy, kg_rank.dfy, kg_search.dfy | KgGraph, KgTriples, KgReach, KgRank, KgSearch | the directed graph and the specification of the builder's operations |
| kg_builder.dfy | KgBuilder | the `KnowledgeGraphBuilder` class |
| kg_rag.dfy | KgRag | `KnowledgeGraphRAG` |
| kg_system.dfy | KgSystem | `IntegratedKGSystem` |
| entity_parsers.dfy, entity_extractor.dfy | EntityParsers, EntityExtractor | both copies of the entity/relationship extractor (their parsers are identical) |
| topics.dfy | Topics | the topic keyword groups shared by the converter and the chunker |
| txt2json.dfy | Txt2Json | `parse_pr_text_to_json` |
| preprocessing.dfy | Preprocessing | `extract_text_from_content` |
| chunking.dfy | Chunking | chunk classifiers and chunk records |
| agent_merger.dfy | AgentMerger | the agent merger |
| unified_system.dfy | UnifiedSystem | the unified system's router and plan generation |
| enhanced_rag.dfy | EnhancedRag | the enhanced graph RAG |

## Model

| member | source | states |
|---|---|---|
| SpoConfig.Configure | pr_rag_v1/core/pr_spo_extractor.py:45-62 | configuration succeeds exactly when the explicit key or the provider's environment key is non-empty; an explicit non-empty key wins; the model name is kept; OpenRouter always gets a base URL and an explicit non-empty base URL is kept |
| SpoExtractor.ChunkText | pr_rag_v1/core/pr_spo_extractor.py:124-158 | an overlap not smaller than a positive chunk size is the `ValueError`; otherwise the chunks are those of the word windows the loop visits |
| SpoExtractor.ChunkWords | pr_rag_v1/core/pr_spo_extractor.py:127-158 | the while loop emits exactly the chunk of each window from word 0 with chunk number 1 |
| SpoChunks.WindowCountBound | pr_rag_v1/core/pr_spo_extractor.py:151-156 | for any sizes, even a zero or negative chunk size, the safety break bounds the output by one chunk per word |
| SpoChunks.WindowAt | pr_rag_v1/core/pr_spo_extractor.py:133-150 | with `0 <= overlap < chunk_size`, window k starts `k * (chunk_size - overlap)` words in, is numbered from its start, and starts inside the text |
| SpoChunks.WindowsCover | pr_rag_v1/core/pr_spo_extractor.py:133-150 | with `0 <= overlap < chunk_size`, every word lies in some window |
| SpoChunks.LastWindowEnds | pr_rag_v1/core/pr_spo_extractor.py:134-147 | with `0 <= overlap < chunk_size`, the last window ends at the last word |
| SpoChunks.ChunkingCoversText | pr_rag_v1/core/pr_spo_extractor.py:124-158 | in the intended regime: at most one chunk per word, chunks exactly when there are words, chunk k numbered k+1 starting `k * (chunk_size - overlap)` words in and non-empty, every word covered, the last chunk ends at the last word |
| SpoReplies.FirstListUnder | pr_rag_v1/core/pr_spo_extractor.py:248-255 | the value found is that of the first wrapper key holding a list, and none of the earlier keys holds one; nothing is found only when no key holds a list |
| SpoReplies.InterpretDict | pr_rag_v1/core/pr_spo_extractor.py:240-271 | a decoded dict becomes, in priority order, its only list value, else the first of triples/results/data/items holding a list, else itself as a one-triple list when it has subject, predicate and object, else the "no triple list" error |
| SpoReplies.InterpretYieldsList | pr_rag_v1/core/pr_spo_extractor.py:240-277 | a decoded reply that is accepted is always a list |
| SpoReplies.ArrayRegexGroup | pr_rag_v1/core/pr_spo_extractor.py:285-287 | the regular-expression group, when there is one, begins with `[` and ends with `]` |
| SpoReplies.RegexFallbackNeverRecovers | pr_rag_v1/core/pr_spo_extractor.py:218-302 | because the reply was stripped before decoding, a reply that does not decode is always a parsing error: the fallback group is the same text |
| SpoExtractor.ValidateItems | pr_rag_v1/core/pr_spo_extractor.py:310-325 | the validation loop keeps exactly the reference list of valid items, each stamped with the chunk number |
| SpoReplies.ValidTripleOf | pr_rag_v1/core/pr_spo_extractor.py:315-319 | a kept item has string subject, predicate and object, `chunk` set to the chunk number, and every other key unchanged |
| SpoReplies.ValidTriplesFields | pr_rag_v1/core/pr_spo_extractor.py:312-325 | every kept triple has string fields and the chunk number |
| SpoReplies.ValidTriplesOrigin | pr_rag_v1/core/pr_spo_extractor.py:312-325 | every kept triple comes from a valid input item and keeps all of its keys other than `chunk` |
| SpoReplies.ValidTriplesAllKept | pr_rag_v1/core/pr_spo_extractor.py:312-325 | when every item is well formed none is dropped |
| SpoReplies.ValidTriplesAppend | pr_rag_v1/core/pr_spo_extractor.py:314-325 | validation works item by item: it distributes over concatenation |
| SpoExtractor.ExtractTriplesFromChunk | pr_rag_v1/core/pr_spo_extractor.py:177-332 | the method's `(triples, error)` is the reference per-chunk outcome |
| SpoReplies.ChunkOutcomeFacts | pr_rag_v1/core/pr_spo_extractor.py:224-332 | an error comes with no triples; a failed completion is the API error; a reply that does not decode is an error; a reply that decodes to a list is not; every triple has string fields and the chunk's number |
| SpoExtractor.ExtractTriplesFromText | pr_rag_v1/core/pr_spo_extractor.py:353-390 | the chunking `ValueError` propagates; otherwise the result dict is the reference aggregation over the text's chunks |
| SpoExtractor.ExtractFromChunks | pr_rag_v1/core/pr_spo_extractor.py:367-383 | the loop collects the reference triples and failed chunks |
| SpoReplies.CollectAppend | pr_rag_v1/core/pr_spo_extractor.py:367-383 | aggregation keeps chunk order: a concatenation collects the triples and failures of both parts in order |
| SpoReplies.CollectFacts | pr_rag_v1/core/pr_spo_extractor.py:367-390 | no more failures than chunks, every failure names a chunk, every triple has string fields and the number of an error-free chunk |
| SpoExtractor.NormalizeTriples | pr_rag_v1/core/pr_spo_extractor.py:405-434 | the seen-set loop computes the reference de-duplication over normalised triples |
| SpoNormal.NormalizedAt | pr_rag_v1/core/pr_spo_extractor.py:405-434 | the output holds, in input order, one normalised triple per input position whose key appears there for the first time |
| SpoNormal.NormalizedSound | pr_rag_v1/core/pr_spo_extractor.py:408-432 | every output triple is the normalised key of some input record, first with that key, and carries that record's `chunk` value (or "unknown") as its source chunk |
| SpoNormal.NormalizedDistinct | pr_rag_v1/core/pr_spo_extractor.py:422-432 | no two output triples share a (subject, predicate, object) key |
| SpoNormal.NormalizedComplete | pr_rag_v1/core/pr_spo_extractor.py:414-432 | every input record with string fields that normalise to non-empty values has its key in the output |
| SpoNormal.NormalizedNormal | pr_rag_v1/core/pr_spo_extractor.py:416-418 | every output subject and object is stripped and lower case, and every predicate is also whitespace-collapsed |
| SpoNormal.NormEntityIdempotent | pr_rag_v1/core/pr_spo_extractor.py:416-418 | normalising a subject or object twice changes nothing |
| SpoNormal.NormPredicateIdempotent | pr_rag_v1/core/pr_spo_extractor.py:417 | normalising a predicate twice changes nothing |
| SpoNormal.NormalizeIdempotent | pr_rag_v1/core/pr_spo_extractor.py:405-434 | normalising the output again (as dicts) gives the same triples, with the source chunk now "unknown" |
| SpoNormal.NormalizeOfNormal | pr_rag_v1/core/pr_spo_extractor.py:405-434 | a list of already normal, distinct triples passes through unchanged apart from the source chunk |
| SpoNormal.FirstPositionsDistinct | pr_rag_v1/core/pr_spo_extractor.py:422-432 | the positions the seen-set keeps have pairwise different keys |
| SpoNormal.FirstPositionsComplete | pr_rag_v1/core/pr_spo_extractor.py:422-432 | every position with a key is kept or has its key kept at an earlier position |
| SpoNormal.SeenKeysHeld | pr_rag_v1/core/pr_spo_extractor.py:406-432 | the seen set after n records holds exactly the keys of those records |
| KgGraph.EmptyWellFormed | pr_rag_v1/core/pr_kg_builder.py:15-20 | a fresh `DiGraph` has distinct (empty) nodes and edges and a label and data dict per edge |
| KgGraph.AddNode | pr_rag_v1/core/pr_kg_builder.py:42-47 | `add_edge` adds an endpoint the first time it is seen and keeps the node order and distinctness otherwise |
| KgGraph.AddEdge | pr_rag_v1/core/pr_kg_builder.py:42-47 | after `add_edge(u, v, label=p)`: the edge (u, v) has label p, the edges and nodes grow by exactly (u, v), u and v, and the edge count grows by one only for a new pair |
| KgGraph.AddEdgeWellFormed | pr_rag_v1/core/pr_kg_builder.py:42-47 | adding an edge keeps the graph well formed |
| KgGraph.AddEdgeAttributes | pr_rag_v1/core/pr_kg_builder.py:42-47 | the edge's data takes the new value of every key passed and keeps the old value of every other key; other edges keep their label and data |
| KgGraph.UpdateKeeps | pr_rag_v1/core/pr_kg_builder.py:42-47 | updating an edge's data dict leaves keys not passed unchanged |
| KgGraph.UpdateOverwrites | pr_rag_v1/core/pr_kg_builder.py:42-47 | after the update, a key that was passed has the passed value whatever the dict held before |
| KgGraph.SuccessorsMembers | pr_rag_v1/core/pr_kg_builder.py:134 | x is a successor of n exactly when (n, x) is an edge |
| KgGraph.PredecessorsMembers | pr_rag_v1/core/pr_kg_builder.py:134 | x is a predecessor of n exactly when (x, n) is an edge |
| KgGraph.EdgeOrderMembers | pr_rag_v1/core/pr_kg_builder.py:191-196 | `edges()` visits exactly the graph's edges |
| KgGraph.EdgeOrderPerm | pr_rag_v1/core/pr_kg_builder.py:228-234 | `edges()` lists every edge exactly once: it is a permutation of the edge set |
| KgTriples.Accepted | pr_rag_v1/core/pr_kg_builder.py:35-39 | a triple is accepted exactly when subject, predicate and object are all present and truthy and all three are strings; then none is empty, the three are the dict's values, and neither endpoint is a list or dict |
| KgTriples.Extras | pr_rag_v1/core/pr_kg_builder.py:46 | the extra edge attributes are entries of the triple whose keys are not subject, predicate or object |
| KgTriples.ExtrasComplete | pr_rag_v1/core/pr_kg_builder.py:46 | every entry of the triple with another key is passed on as an edge attribute |
| KgTriples.AddAllFacts | pr_rag_v1/core/pr_kg_builder.py:32-54 | the count returned is the number of accepted triples; the nodes are the old nodes plus every accepted endpoint, and the edges the old edges plus every accepted pair |
| KgTriples.AddAllRaises | pr_rag_v1/core/pr_kg_builder.py:38-47 | adding raises exactly when some triple with three truthy fields carries an extra `label`, `self`, `u_of_edge` or `v_of_edge` key, which clashes with a parameter of `add_edge`, or has a list or dict as subject or object, which cannot be hashed |
| KgTriples.ParameterKeyRaises | pr_rag_v1/core/pr_kg_builder.py:42-47 | a string triple with an extra `label`, `self`, `u_of_edge` or `v_of_edge` key raises |
| KgTriples.ListSubjectRaises | pr_rag_v1/core/pr_kg_builder.py:38-43 | a triple whose subject is a non-empty list raises, the list being unhashable, and the graph is left as it was |
| KgTriples.ListObjectKeepsSubject | pr_rag_v1/core/pr_kg_builder.py:38-43 | a triple whose object is a non-empty list raises after `add_edge` has made the string subject a node: the graph gains that node and nothing else, and nothing is counted |
| KgTriples.RaisedSticks | pr_rag_v1/core/pr_kg_builder.py:34-48 | once a triple raises, the later ones are not added |
| KgTriples.AddAllWellFormed | pr_rag_v1/core/pr_kg_builder.py:32-54 | adding triples keeps the graph well formed |
| KgTriples.RaisedGraphWellFormed | pr_rag_v1/core/pr_kg_builder.py:42-47 | the graph a raising `add_edge` leaves is well formed, keeps its edges, labels and data, and loses no node |
| KgTriples.RepeatKeepsEdges | pr_rag_v1/core/pr_kg_builder.py:42-48 | adding a triple whose pair is already an edge adds no edge |
| KgTriples.AddTwice | pr_rag_v1/core/pr_kg_builder.py:42-50 | adding a triple twice keeps one edge with the latest label but counts two additions |
| KgReach.ExpandMembers | pr_rag_v1/core/pr_kg_builder.py:95-102 | one round adds exactly the nodes adjacent, in either direction, to a node already relevant |
| KgReach.ReachSeeds | pr_rag_v1/core/pr_kg_builder.py:92-104 | the given entities are always among the relevant nodes |
| KgReach.ReachGrows | pr_rag_v1/core/pr_kg_builder.py:95 | a greater depth never yields fewer nodes |
| KgReach.ReachMono | pr_rag_v1/core/pr_kg_builder.py:92-102 | more seed entities never yield fewer nodes |
| KgReach.ReachFromOne | pr_rag_v1/core/pr_kg_builder.py:92-102 | every relevant node is reached from a single seed |
| KgReach.ReachSymmetric | pr_rag_v1/core/pr_kg_builder.py:97-101 | reachability ignores edge direction: y reaches x within d rounds when x reaches y |
| KgReach.ReachAbsentSeeds | pr_rag_v1/core/pr_kg_builder.py:92-104 | seeds that are not nodes reach nothing and are kept as they are |
| KgReach.InducedFacts | pr_rag_v1/core/pr_kg_builder.py:104 | `subgraph(s)` is well formed, holds the graph's nodes in s and its edges with both ends in s, with their labels |
| KgReach.ComponentsBounds | pr_rag_v1/core/pr_kg_builder.py:71 | a non-empty graph has between 1 and as many weakly connected components as nodes |
| KgReach.ComponentClosed | pr_rag_v1/core/pr_kg_builder.py:70-71 | one more undirected round from a node's component adds nothing, so the component is closed under adjacency |
| KgReach.ComponentHoldsReach | pr_rag_v1/core/pr_kg_builder.py:70-71 | whatever any number of rounds reaches from a node lies in its component |
| KgReach.ConnectedOneComponent | pr_rag_v1/core/pr_kg_builder.py:70-71 | a weakly connected graph has one component |
| KgReach.NoEdgesAllComponents | pr_rag_v1/core/pr_kg_builder.py:71 | a graph without edges has one component per node |
| KgReach.Statistics | pr_rag_v1/core/pr_kg_builder.py:56-75 | the dict reports the node, edge and added-triple counts; an empty graph is not connected and has 0 components |
| KgReach.StatisticsComponents | pr_rag_v1/core/pr_kg_builder.py:67-71 | for a non-empty graph the component count is between 1 and the node count, and a connected graph has one |
| KgRank.DegreeList | pr_rag_v1/core/pr_kg_builder.py:202 | `dict(graph.degree())` has one entry per node |
| KgRank.DegreeListAt | pr_rag_v1/core/pr_kg_builder.py:202 | entry i pairs node i with its degree |
| KgRank.InsertFacts | pr_rag_v1/core/pr_kg_builder.py:203 | inserting into a descending list keeps it descending and adds exactly the one element |
| KgRank.SortFacts | pr_rag_v1/core/pr_kg_builder.py:203 | `sorted(..., key=degree, reverse=True)` is descending by degree and a permutation of its input |
| KgRank.SortStable | pr_rag_v1/core/pr_kg_builder.py:203 | the sort is stable: the entries of each degree keep their input order |
| KgRank.PyTake | pr_rag_v1/core/pr_kg_builder.py:213 | Python's `s[:k]` is a prefix of s, of length min(k, len s) for k >= 0 and of len s + k (at least 0) for negative k |
| KgRank.RankedRowsAt | pr_rag_v1/core/pr_kg_builder.py:205-213 | each row reports the node, its degree, its in-degree and its out-degree |
| KgRank.HighestDegreeFacts | pr_rag_v1/core/pr_kg_builder.py:200-213 | at most top_k rows, each a node of the graph whose degree is the sum of its in- and out-degree, in non-increasing degree order |
| KgRank.HighestDegreeTop | pr_rag_v1/core/pr_kg_builder.py:200-213 | the rows are the top ones: no node left out has a higher degree than the last row kept |
| KgRank.SortedDegrees | pr_rag_v1/core/pr_kg_builder.py:202-203 | the ranking is a stable, descending permutation of the graph's degree list |
| KgSearch.RelationshipsFacts | pr_rag_v1/core/pr_kg_builder.py:141-156 | at most two relationship entries; an `out` entry exactly when (node, neighbor) is an edge, an `in` entry exactly when (neighbor, node) is one, each with that edge's label and its data without `label` |
| KgSearch.NeighborsAdjacent | pr_rag_v1/core/pr_kg_builder.py:134 | the neighbor list holds exactly the successors and predecessors of the node |
| KgSearch.VisitAllCovers | pr_rag_v1/core/pr_kg_builder.py:136-139 | after a node's neighbors are processed, every one of them is visited |
| KgSearch.FindRelatedSound | pr_rag_v1/core/pr_kg_builder.py:106-169 | every result is a distinct entity other than the start, reached from an earlier result (or the start) one hop closer over an edge in either direction, with hops between 1 and max_hops in non-decreasing order |
| KgSearch.FindRelatedEmpty | pr_rag_v1/core/pr_kg_builder.py:121-122 | an entity that is not a node, or max_hops <= 0, gives no results |
| KgSearch.FindRelatedNeighbors | pr_rag_v1/core/pr_kg_builder.py:130-139 | with max_hops >= 1 every neighbor of a start node, other than the start itself, appears with hops 1 |
| KgSearch.FindRelatedWithinReach | pr_rag_v1/core/pr_kg_builder.py:106-169 | every result lies within max_hops undirected hops of the start |
| KgBuilder.FactsAt | pr_rag_v1/core/pr_kg_builder.py:194-195 | each context line is `"{u} {label} {v}."` for its edge |
| KgBuilder.FirstEdges | pr_rag_v1/core/pr_kg_builder.py:191-196 | the loop keeps a prefix of the edges of length max_edges, clamped to 0 and to the edge count |
| KgBuilder.ContextLinesFacts | pr_rag_v1/core/pr_kg_builder.py:171-198 | at most max_edges lines, each the fact of an edge with both ends within two hops of the entities; all such edges when max_edges allows |
| KgBuilder.KnowledgeGraphBuilder.constructor | pr_rag_v1/core/pr_kg_builder.py:15-20 | the builder starts with an empty graph and zero counters |
| KgBuilder.KnowledgeGraphBuilder.AddTriples | pr_rag_v1/core/pr_kg_builder.py:22-54 | the graph becomes that of adding the triples in order; on a `TypeError` (a clashing key or an unhashable endpoint) it reports the error, keeps the subject node `add_edge` made before an unhashable object raised, and leaves the counters as they were; otherwise it returns the number added and the counters track the graph |
| KgBuilder.KnowledgeGraphBuilder.GetStatistics | pr_rag_v1/core/pr_kg_builder.py:56-75 | node, edge and triple counts; an empty graph is not connected and has 0 components, otherwise 1 to node-count components and one when connected |
| KgBuilder.KnowledgeGraphBuilder.GetSubgraphByEntities | pr_rag_v1/core/pr_kg_builder.py:77-104 | the result is the subgraph induced by the nodes reached from the entities within max_depth rounds |
| KgBuilder.ExpandOnce | pr_rag_v1/core/pr_kg_builder.py:95-102 | the loop over the edges adds exactly the one-round expansion |
| KgBuilder.KnowledgeGraphBuilder.FindRelatedEntities | pr_rag_v1/core/pr_kg_builder.py:106-169 | the breadth-first loop computes the related-entities list |
| KgBuilder.SearchLevel | pr_rag_v1/core/pr_kg_builder.py:132-163 | one level of the search loop equals the level step of the specification |
| KgBuilder.KnowledgeGraphBuilder.GetTriplesForContext | pr_rag_v1/core/pr_kg_builder.py:171-198 | the loop produces the context lines |
| KgBuilder.KnowledgeGraphBuilder.GetNodeWithHighestDegree | pr_rag_v1/core/pr_kg_builder.py:200-213 | at most top_k rows of graph nodes with consistent degrees, in non-increasing degree order |
| KgBuilder.KnowledgeGraphBuilder.ExportToDict | pr_rag_v1/core/pr_kg_builder.py:215-240 | one row per node with its attributes, one row per edge in edge order with its label and data, and the current statistics |
| KgBuilder.KnowledgeGraphBuilder.Clear | pr_rag_v1/core/pr_kg_builder.py:248-253 | the graph is emptied and the counters reset to zero |
| KgRag.RagConfigure | pr_rag_v1/core/pr_kg_rag.py:48-64 | construction succeeds exactly when the given key or the environment key for the chosen provider is non-empty; the given key wins; the default model name is replaced by gpt-3.5-turbo; OpenRouter always has a base URL, and a given one wins |
| KgRag.Mention | pr_rag_v1/core/pr_kg_rag.py:96-97 | a missing subject or object reads as the empty string |
| KgRag.MatchedErr | pr_rag_v1/core/pr_kg_rag.py:95-109 | matching raises exactly when some triple's subject or object is not a string |
| KgRag.MatchedMembers | pr_rag_v1/core/pr_kg_rag.py:89-111 | an entity is in the result exactly when it is some triple's subject or object and it is a substring of the lower-cased question or one of its words is a word of it |
| KgRag.MatchOneMembers | pr_rag_v1/core/pr_kg_rag.py:95-109 | one loop step adds exactly the matching subject and object of that triple |
| KgRag.MissingMatchesEmpty | pr_rag_v1/core/pr_kg_rag.py:96-103 | a triple without subject or object contributes the empty entity, which every question contains |
| KgRag.WordMatches | pr_rag_v1/core/pr_kg_rag.py:100-102 | an entity whose first word is a word of the question is matched |
| KgRag.RaiseSticks | pr_rag_v1/core/pr_kg_rag.py:95-109 | once a triple raises, the later triples do not change the outcome |
| KgRag.ExtractEntitiesFromQuestion | pr_rag_v1/core/pr_kg_rag.py:74-111 | the loop computes the matched entity set, or the error |
| KgRag.ContextCount | pr_rag_v1/core/pr_kg_rag.py:113-140 | for single-line names, the context holds one line per fact after its title, none without entities, and at most max_triples |
| KgRag.LinesSingle | pr_rag_v1/core/pr_kg_rag.py:132 | facts built from single-line names are single lines |
| KgRag.ContextSplit | pr_rag_v1/core/pr_kg_rag.py:137-138 | the title line followed by n joined single lines splits into n lines after the title |
| KgRag.KnowledgeGraphRag.BuildContextFromGraph | pr_rag_v1/core/pr_kg_rag.py:113-140 | the context is the no-entities message, the nothing-found message, or the title followed by the context facts |
| KgRag.Answer | pr_rag_v1/core/pr_kg_rag.py:194-208 | a reply is stripped; a failure is `❌ 查询失败: ` followed by the error text |
| KgRag.KnowledgeGraphRag.Query | pr_rag_v1/core/pr_kg_rag.py:142-208 | raises exactly when entity matching raises; otherwise answers the prompt built from the question and the graph context of the matched entities |
| KgRag.FirstEntitiesMembers | pr_rag_v1/core/pr_kg_rag.py:238-239 | the entities collected from the first n results are exactly their `entity` fields |
| KgRag.ExpandedFacts | pr_rag_v1/core/pr_kg_rag.py:235-239 | the expanded set contains the initial entities, and every added entity is a graph node within max_hops of them |
| KgRag.ExpandedComplete | pr_rag_v1/core/pr_kg_rag.py:236-239 | every entity related to an initial entity is in the expanded set |
| KgRag.KnowledgeGraphRag.ExpandEntities | pr_rag_v1/core/pr_kg_rag.py:235-239 | the loop over the initial entities computes the expanded set |
| KgRag.AddEntities | pr_rag_v1/core/pr_kg_rag.py:238-239 | the inner loop adds every related entity |
| KgRag.DetailedOf | pr_rag_v1/core/pr_kg_rag.py:272-287 | success reports the answer, the entities used, the initial entities and the line count of the context minus one; failure reports the error and empty metadata |
| KgRag.KnowledgeGraphRag.QueryWithRelatedEntities | pr_rag_v1/core/pr_kg_rag.py:210-287 | raises exactly when matching raises; otherwise answers from the context of the expanded entities and reports the metadata |
| KgSystem.RagSettings | pr_rag_v1/core/pr_integrated_kg_system.py:109-117 | the RAG system built from the extractor's non-empty key is configured with that key |
| KgSystem.NormalAddsAll | pr_rag_v1/core/pr_integrated_kg_system.py:94-102 | normalized triples never raise when added, and every one of them is counted |
| KgSystem.NormalAccepted | pr_rag_v1/core/pr_integrated_kg_system.py:102 | a normalized triple is accepted as its subject, predicate and object and has no `label` key |
| KgSystem.NormalAlwaysMatches | pr_rag_v1/core/pr_integrated_kg_system.py:147-151 | entity matching never raises on normalized triples |
| KgSystem.QuestionEntities | pr_rag_v1/core/pr_integrated_kg_system.py:147-151 | the entities matched in the question against the normalized triples |
| KgSystem.IntegratedKgSystem.constructor | pr_rag_v1/core/pr_integrated_kg_system.py:16-58 | a new system has an empty graph, no normalized triples and no RAG system |
| KgSystem.IntegratedKgSystem.ProcessText | pr_rag_v1/core/pr_integrated_kg_system.py:60-124 | an overlap not smaller than the chunk size raises and changes nothing; otherwise the normalized triples of the extraction are stored and added to the graph, a RAG system is created with the extractor's settings, and the result reports the extraction, the counts and the statistics |
| KgSystem.IntegratedKgSystem.Query | pr_rag_v1/core/pr_integrated_kg_system.py:126-151 | raises before the graph is built or without triples; otherwise answers from the context of the entities matched in the question |
| KgSystem.IntegratedKgSystem.QueryWithDetails | pr_rag_v1/core/pr_integrated_kg_system.py:153-181 | the same two errors; otherwise the detailed answer over the expanded entities |
| KgSystem.IntegratedKgSystem.GetGraphStatistics | pr_rag_v1/core/pr_integrated_kg_system.py:183-185 | the builder's node, edge and triple counts |
| KgSystem.IntegratedKgSystem.GetTopEntities | pr_rag_v1/core/pr_integrated_kg_system.py:187-189 | the builder's `get_node_with_highest_degree(top_k)` unchanged: at most top_k rows, each a builder node whose degree is its in-degree plus out-degree, in non-increasing degree order |
| KgSystem.IntegratedKgSystem.Clear | pr_rag_v1/core/pr_integrated_kg_system.py:195-199 | the graph is emptied, the triples dropped and the RAG system removed |
| EntityParsers.Entities.With | pr_rag_v1/core/pr_entity_extractor.py:235-243 | replacing one category's list leaves the other five unchanged |
| EntityParsers.ValueOf | pr_rag_v1/core/pr_entity_extractor.py:228-230 | the value after the first colon, stripped |
| EntityParsers.FindByName | pr_rag_v1/core/pr_entity_extractor.py:234-238 | the index of the first entity with that name, or none exactly when no entity has it |
| EntityParsers.RecordNames | pr_rag_v1/core/pr_entity_extractor.py:232-243 | after recording a value, the names present are the old names plus the value |
| EntityParsers.RecordUnique | pr_rag_v1/core/pr_entity_extractor.py:234-243 | recording updates an existing entity of that name instead of adding a second one, so names stay unique |
| EntityParsers.ScanEntityAppend | pr_rag_v1/core/pr_entity_extractor.py:207-243 | scanning two runs of lines is scanning the first and continuing with the second |
| EntityParsers.HeaderFreeIdle | pr_rag_v1/core/pr_entity_extractor.py:227 | lines before the first category header record nothing |
| EntityParsers.BeforeHeaderIgnored | pr_rag_v1/core/pr_entity_extractor.py:205-227 | a prefix without category headers does not change the result |
| EntityParsers.ScanUnique | pr_rag_v1/core/pr_entity_extractor.py:193-245 | within each category the parsed entity names are unique |
| EntityParsers.ParsedNamesUnique | pr_rag_v1/core/pr_entity_extractor.py:193-245 | every category of a parsed response has unique names |
| EntityParsers.ScanKeepsNames | pr_rag_v1/core/pr_entity_extractor.py:207-243 | a name once recorded stays present to the end of the scan |
| EntityParsers.StepRecords | pr_rag_v1/core/pr_entity_extractor.py:227-243 | a `key: value` line under a header, with a value neither empty nor `[待填写]`, records that name in the current category |
| EntityParsers.ValueRecorded | pr_rag_v1/core/pr_entity_extractor.py:207-245 | every such line appears by name in the category of the header above it in the final result |
| EntityParsers.FindEntity | pr_rag_v1/core/pr_entity_extractor.py:234-238 | the search loop finds the first entity with the name |
| EntityParsers.ParseEntityResponse | pr_rag_v1/core/pr_entity_extractor.py:193-245 | the parser computes the parsed entities of the response |
| EntityParsers.ScanEntities | pr_rag_v1/core/pr_entity_extractor.py:207-243 | the line loop computes the scan of the lines |
| EntityParsers.TypeTagLine | pr_rag_v1/core/pr_entity_extractor.py:262-265 | a line containing `关系类型:` starts a new relationship |
| EntityParsers.FlushNoneEmpty | pr_rag_v1/core/pr_entity_extractor.py:257-259 | only a non-empty current relationship is appended |
| EntityParsers.StepRelationFacts | pr_rag_v1/core/pr_entity_extractor.py:254-276 | each line keeps the appended relationships non-empty and adds its type for a type line and nothing else |
| EntityParsers.ScanRelationFacts | pr_rag_v1/core/pr_entity_extractor.py:254-279 | the scan appends no empty relationship, and the types reported are the values of the type lines, in order |
| EntityParsers.ParsedRelationsFacts | pr_rag_v1/core/pr_entity_extractor.py:247-281 | a parsed response has no empty relationship, and its types are the type-line values in order |
| EntityParsers.ParseRelationshipResponse | pr_rag_v1/core/pr_entity_extractor.py:247-281 | the parser computes the parsed relationships of the response |
| EntityParsers.ScanRelations | pr_rag_v1/core/pr_entity_extractor.py:254-279 | the line loop and the final flush compute the scan of the lines |
| EntityExtractor.NewExtractor | pr_rag_v1/core/pr_entity_extractor.py:26-47 | SPO extraction is on exactly when requested, available and the extractor could be configured, and then holds that configuration |
| EntityExtractor.ExtractSpoTriplesFromText | pr_rag_v1/core/pr_entity_extractor.py:291-332 | raises when SPO is off, raises the chunking error for an overlap not smaller than the chunk size, and otherwise returns the extraction with its normalized triples |
| EntityExtractor.ExtractAndNormalize | pr_rag_v1/core/pr_entity_extractor.py:313-332 | the SPO extraction of the text followed by normalization, or the chunking error |
| EntityExtractor.Classify | pr_rag_v1/core/pr_entity_extractor.py:401-414 | the keyword classifier never yields `agencies` |
| EntityExtractor.CollectMentions | pr_rag_v1/core/pr_entity_extractor.py:392-395 | the loop collects the subjects and objects of all triples |
| EntityExtractor.ClassifyStep | pr_rag_v1/core/pr_entity_extractor.py:398-414 | classifying one more entity adds it to its category only |
| EntityExtractor.AddEntityStep | pr_rag_v1/core/pr_entity_extractor.py:398-414 | one iteration, the empty entity skipped, keeps the classification invariant |
| EntityExtractor.SpoToEntities | pr_rag_v1/core/pr_entity_extractor.py:380-416 | every non-empty subject or object is listed once in its keyword category and nothing else is listed |
| EntityExtractor.ExactlyOneCategory | pr_rag_v1/core/pr_entity_extractor.py:398-416 | each mentioned entity is in exactly its classified category, and `agencies` stays empty |
| EntityExtractor.RelationTypeFacts | pr_rag_v1/core/pr_entity_extractor.py:424 | the relationship type is the predicate upper-cased with spaces replaced by underscores, same length, no spaces and no lower-case letters |
| EntityExtractor.SpoToRelationships | pr_rag_v1/core/pr_entity_extractor.py:418-432 | one relationship per triple, in order, each converted from its triple |
| EntityExtractor.MetadataOf | pr_rag_v1/core/pr_entity_extractor.py:352-357 | content type, industry and brand mentions are read from the chunk with defaults `general`, `unknown` and `[]`, and the extraction method is recorded |
| EntityExtractor.TraditionalChunk | pr_rag_v1/core/pr_entity_extractor.py:362-378 | the traditional path reports the chunk id, text and source with the parsed entities and relationships |
| EntityExtractor.ProcessChunk | pr_rag_v1/core/pr_entity_extractor.py:334-378 | with SPO on and a string text, the entities and relationships are converted from the normalized triples and the method is `SPO`; otherwise the traditional result with method `traditional` |
| EntityExtractor.ProcessChunkLegacy | pr-agent/pr_rag_v1/core/pr_entity_extractor.py:261-282 | the older copy always takes the traditional path and records no extraction method |
| Topics.FirstMatchFrom | pr-agent/pr_rag_v1/core/pr_txt2json.py:51-65 | the position of the first topic from i on whose test the name passes, or none exactly when every later test fails |
| Topics.TopicOf | pr-agent/pr_rag_v1/core/pr_txt2json.py:51-62 | a key exactly when some topic's keyword occurs in the name, and then the key of the first such topic in the order brand, strategy, campaign, media, audience, results |
| Topics.MissesRule | pr-agent/pr_rag_v1/core/pr_txt2json.py:51-62 | a lower-case name lacking a character of both keywords fails that topic's test |
| Topics.HitsRule | pr-agent/pr_rag_v1/core/pr_txt2json.py:51-62 | a lower-case name starting with the topic's English keyword passes its test |
| Topics.TopicKeysFixed | pr-agent/pr_rag_v1/core/pr_txt2json.py:51-62 | each topic key is classified as itself |
| Txt2Json.DigitRun | pr-agent/pr_rag_v1/core/pr_txt2json.py:24 | the longest run of leading Unicode decimal digits, the characters `\d` matches |
| Txt2Json.MarkerLen | pr-agent/pr_rag_v1/core/pr_txt2json.py:24 | the length of the `[digits]` citation at the start, with any Unicode decimal digits, the only one there, or 0 when none starts there |
| Txt2Json.RemoveCitationsIdentity | pr-agent/pr_rag_v1/core/pr_txt2json.py:24 | removing citations changes nothing exactly when the text holds no `[digits]` marker |
| Txt2Json.MarkerRemoved | pr-agent/pr_rag_v1/core/pr_txt2json.py:24 | a leading `[digits]` marker is dropped |
| Strs.FullWidthDecimal | pr-agent/pr_rag_v1/core/pr_txt2json.py:24 | the full-width digits U+FF10 to U+FF19 are decimal digits for `\d` |
| Txt2Json.FullWidthMarkerRemoved | pr-agent/pr_rag_v1/core/pr_txt2json.py:24 | a marker in full-width digits, `[１]`, is dropped too |
| Txt2Json.RemoveCitationsKeepsPlain | pr-agent/pr_rag_v1/core/pr_txt2json.py:24 | the text outside the markers is kept, in order |
| Txt2Json.SplitSections | pr-agent/pr_rag_v1/core/pr_txt2json.py:27 | a split always yields at least one piece |
| Txt2Json.FirstPiece | pr-agent/pr_rag_v1/core/pr_txt2json.py:27 | the first piece is a prefix of the text containing its first line |
| Txt2Json.JoinSections | pr-agent/pr_rag_v1/core/pr_txt2json.py:27 | joining the pieces with newlines gives back the text: the split only removes the newline before each `Section:` |
| Txt2Json.SectionPieces | pr-agent/pr_rag_v1/core/pr_txt2json.py:27 | every piece after the first starts with `Section:`, and no piece holds a further split point |
| Txt2Json.HeaderName | pr-agent/pr_rag_v1/core/pr_txt2json.py:37 | `Section: (.+)` matches exactly when the piece starts with `Section: ` and a non-newline character, and the name is the rest of that line |
| Txt2Json.SectionKey | pr-agent/pr_rag_v1/core/pr_txt2json.py:51-65 | a topic name is filed under the topic's key, any other under its own name |
| Txt2Json.EntryOf | pr-agent/pr_rag_v1/core/pr_txt2json.py:32-65 | a blank piece writes nothing; a section writes its stripped content under its key; otherwise only a `Title:` or `Content:` piece writes, under `title` or `content` |
| Txt2Json.FillHasKey | pr-agent/pr_rag_v1/core/pr_txt2json.py:30-66 | a key is in the result exactly when some piece writes it |
| Txt2Json.FillLast | pr-agent/pr_rag_v1/core/pr_txt2json.py:30-66 | a key holds the value of the last piece that writes it |
| Txt2Json.ParsePrTextToJson | pr-agent/pr_rag_v1/core/pr_txt2json.py:21-67 | the loop builds the dict that the pieces of the citation-free text write |
| Preprocessing.LongTitles | pr_rag_v1/core/pr_multi_format_preprocessing.py:183-196 | only the table rule can tag a line of 100 or more characters as a title |
| Preprocessing.StripAll | pr_rag_v1/core/pr_multi_format_preprocessing.py:176 | each line is stripped |
| Preprocessing.Tags | pr_rag_v1/core/pr_multi_format_preprocessing.py:183-198 | each kept line is tagged by the file type's rule |
| Preprocessing.TaggedLinesStep | pr_rag_v1/core/pr_multi_format_preprocessing.py:175-179 | one line step keeps the stripped line exactly when it is not empty |
| Preprocessing.KeptAppend | pr_rag_v1/core/pr_multi_format_preprocessing.py:175-179 | the kept lines of two runs are the kept lines of each, in order |
| Preprocessing.KeptFacts | pr_rag_v1/core/pr_multi_format_preprocessing.py:175-179 | kept lines are stripped and not empty, and contain no newline |
| Preprocessing.KeptEmptyIffBlank | pr_rag_v1/core/pr_multi_format_preprocessing.py:175-179 | nothing is kept exactly when every line is blank |
| Preprocessing.ExtensionRules | pr_rag_v1/core/pr_multi_format_preprocessing.py:230-260 | the file type passed on is the extension without its dot, so of the supported extensions exactly xlsx, xls, doc, ppt, htm, json and txt get no title rule |
| Preprocessing.ExtractTextFromContent | pr_rag_v1/core/pr_multi_format_preprocessing.py:167-203 | empty content gives none; otherwise the tagged non-blank lines joined with newlines |
| Preprocessing.BlankContent | pr_rag_v1/core/pr_multi_format_preprocessing.py:167-203 | content of blank lines gives the empty text |
| Preprocessing.TaggedRoundTrip | pr_rag_v1/core/pr_multi_format_preprocessing.py:200-203 | splitting the result at newlines gives back the tagged lines |
| Chunking.ContentType | pr-agent/pr_rag_v1/core/pr_chunking.py:78-95 | the first topic the item name mentions, or `general` |
| Chunking.KeyContentType | pr-agent/pr_rag_v1/core/pr_chunking.py:78-95 | an item named by a topic key has that content type |
| Chunking.IndustryOf | pr-agent/pr_rag_v1/core/pr_chunking.py:97-103 | the first listed industry occurring in the chunk, or `unknown` exactly when none occurs |
| Chunking.UnknownNoIndustry | pr-agent/pr_rag_v1/core/pr_chunking.py:99-103 | `unknown` is not an industry, so the two outcomes never clash |
| Chunking.PresentMember | pr-agent/pr_rag_v1/core/pr_chunking.py:105-116 | a keyword is reported exactly when it occurs in the text |
| Chunking.PresentDistinct | pr-agent/pr_rag_v1/core/pr_chunking.py:111-114 | distinct keywords give distinct mentions |
| Chunking.ExtractBrandMentions | pr-agent/pr_rag_v1/core/pr_chunking.py:105-116 | the loop lists the brand keywords found in the lower-cased chunk, in keyword order |
| Chunking.BrandMentionsFacts | pr-agent/pr_rag_v1/core/pr_chunking.py:105-116 | the mentions are distinct and are exactly the keywords occurring in the lower-cased chunk |
| Chunking.ChunkIdInjective | pr-agent/pr_rag_v1/core/pr_chunking.py:52 | within one form, `{form}-{item}-chunk{seq:04d}` determines the item and the sequence number |
| Chunking.FormName | pr-agent/pr_rag_v1/core/pr_chunking.py:47 | the form name exists exactly when the path has both a `/` and a `.`, and the name then holds no `/` |
| Chunking.FormNameOf | pr-agent/pr_rag_v1/core/pr_chunking.py:47 | a path `dir/base.ext` has form name `base` |
| Chunking.ItemRecordAt | pr-agent/pr_rag_v1/core/pr_chunking.py:45-58 | record k of an item carries chunk k, its sequence number k, its id and its metadata |
| Chunking.AllRecordsCount | pr-agent/pr_rag_v1/core/pr_chunking.py:30-58 | one record per chunk of every item |
| Chunking.ChunkRecords | pr-agent/pr_rag_v1/core/pr_chunking.py:45-58 | the records of one item, or the exception when the path has no form name and a chunk exists |
| Chunking.SplitPrDataFromFile | pr-agent/pr_rag_v1/core/pr_chunking.py:20-76 | an unreadable or non-object file gives `[]`; otherwise the records of all items in key order, or `[]` when the path has no form name |
| AgentMerger.DetectConflicts | pr_rag_v1/agent_merger.py:92-135 | at most three conflicts, each naming exactly the non-empty shared names of its kind |
| AgentMerger.DetectConflictsOrder | pr_rag_v1/agent_merger.py:92-135 | conflicts come in the order class, function, variable, and a kind appears exactly when its names are shared |
| AgentMerger.DetectConflictsSymmetric | pr_rag_v1/agent_merger.py:97-133 | swapping the two analyses gives the same conflicts |
| AgentMerger.SeveritiesCover | pr_rag_v1/agent_merger.py:312-314 | the high, medium and low counts add up to the conflict count |
| AgentMerger.DetectedSeverities | pr_rag_v1/agent_merger.py:101-133 | one high conflict exactly when classes clash, one medium when functions clash, one low when variables clash |
| AgentMerger.ResolutionsCount | pr_rag_v1/agent_merger.py:177-189 | one resolution per conflict except the variable conflicts |
| AgentMerger.ResolutionsFor | pr_rag_v1/agent_merger.py:177-189 | each resolution resolves a given class or function conflict |
| AgentMerger.ResolutionsName | pr_rag_v1/agent_merger.py:176-188 | when the chosen first name is a member of its set and every conflict names something, each action renames a name of its own conflict, with `_Agent1`/`_Agent2` for classes and `_agent1`/`_agent2` for functions |
| AgentMerger.GenerateMergePlan | pr_rag_v1/agent_merger.py:162-209 | the plan keeps the strategy, resolves the conflicts, holds exactly the imports of either agent, and concatenates classes and functions agent 1 first |
| AgentMerger.KeywordLineWords | pr_rag_v1/agent_merger.py:271-276 | a line starting with `class ` or `def ` has a second word to take the name from |
| AgentMerger.DeclaredName | pr_rag_v1/agent_merger.py:272 | the declared name lies on one line |
| AgentMerger.PrefixLineAt | pr_rag_v1/agent_merger.py:270-280 | each output line is its input line, prefixed when it declares a class or function |
| AgentMerger.AddNamespacePrefix | pr_rag_v1/agent_merger.py:264-282 | the loop joins the per-line results with newlines |
| AgentMerger.PrefixKeepsLines | pr_rag_v1/agent_merger.py:264-282 | the output has as many lines as the input; lines that declare no class and no non-dunder function are unchanged |
| AgentMerger.StrLeTotal | pr_rag_v1/agent_merger.py:290 | the string order used by `sorted` is total |
| AgentMerger.StrLeTrans | pr_rag_v1/agent_merger.py:290 | and transitive |
| AgentMerger.SortStrings | pr_rag_v1/agent_merger.py:290 | `sorted` gives an ordered permutation |
| AgentMerger.GenerateImportsSection | pr_rag_v1/agent_merger.py:284-293 | no imports give `# 无额外导入`; otherwise the header and one `import` line per sorted import |
| AgentMerger.ImportSectionLines | pr_rag_v1/agent_merger.py:289-293 | the section splits into the header, one `import X` line per import in sorted order, and a final empty line |
| AgentMerger.GenerateSummary | pr_rag_v1/agent_merger.py:295-327 | the summary starts with the counts and ends with the conflict advice exactly when there are conflicts, and with the clean advice exactly when there are none |
| UnifiedSystem.RouteMode | pr_rag_v1/unified_pr_system.py:198-204 | a mode other than `auto` is kept; `auto` becomes `plan_generation` exactly when the query holds a plan keyword, `entity_analysis` exactly when it holds no plan keyword but an analysis keyword, and `knowledge_query` otherwise |
| UnifiedSystem.RouteIdempotent | pr_rag_v1/unified_pr_system.py:198-204 | routing a routed mode again changes nothing |
| UnifiedSystem.ParseEnterpriseInfo | pr_rag_v1/unified_pr_system.py:232-257 | the stage is 初创企业 when the query says 初创, else 大型国企央企 when it says 大型, else the default; the market is ToB before ToG before the default; every other field keeps its default |
| UnifiedSystem.HitPartAt | pr_rag_v1/unified_pr_system.py:140-142 | hit i is shown as `[i]` with at most 800 characters of its text and its source |
| UnifiedSystem.Context | pr_rag_v1/unified_pr_system.py:139-145 | the context is a prefix of the joined hit parts and graph part: exactly max_context_chars long when the text is longer, the whole text when it fits, and for a negative limit the text without that many trailing characters |
| UnifiedSystem.Requested | pr_rag_v1/unified_pr_system.py:157-173 | the types produced are exactly those of A to F that were requested |
| UnifiedSystem.PlanTextsStep | pr_rag_v1/unified_pr_system.py:157-173 | each type's block extends the texts of the blocks before it |
| UnifiedSystem.PlanTextsSticky | pr_rag_v1/unified_pr_system.py:157-178 | a failed completion ends plan generation: later types change nothing |
| UnifiedSystem.PlanTextsKeys | pr_rag_v1/unified_pr_system.py:157-175 | on success the result holds one text per requested type, in the order A to F |
| UnifiedSystem.PlanTextsFails | pr_rag_v1/unified_pr_system.py:157-178 | generation fails exactly when the completion of some requested type fails |
| UnifiedSystem.DefaultPlan | pr_rag_v1/unified_pr_system.py:127-128 | with the default types and no failure the plan has all six texts A to F |
| UnifiedSystem.RequestedMono | pr_rag_v1/unified_pr_system.py:127-128 | requesting every type yields the types in order |
| UnifiedSystem.GeneratePrPlan | pr_rag_v1/unified_pr_system.py:125-178 | a retrieval or graph failure gives the `方案生成失败: ` error; otherwise the texts of the requested types over the cut context, or that error for a failed completion |
| UnifiedSystem.FillPlans | pr_rag_v1/unified_pr_system.py:151-175 | the six blocks compute the plan texts |
| UnifiedSystem.UnifiedQuery | pr_rag_v1/unified_pr_system.py:194-222 | the result echoes the query and the routed mode and holds the answer of the one operation that mode names, the plan being made from the profile ParseEnterpriseInfo reads from the query, or nothing for an unknown mode |
| EnhancedRag.TextCut | pr-agent/pr_rag_v1/core/pr_enhanced_rag.py:147 | `text[:200]` fails exactly for a value that is neither a string nor a list; a string is cut to a prefix of at most 200 characters |
| EnhancedRag.AddLinesExtends | pr-agent/pr_rag_v1/core/pr_enhanced_rag.py:148-157 | the field lines only append to the block |
| EnhancedRag.BlockFacts | pr-agent/pr_rag_v1/core/pr_enhanced_rag.py:142-157 | a block fails exactly when its text cannot be sliced, and otherwise starts with `结果 k:` |
| EnhancedRag.BareBlock | pr-agent/pr_rag_v1/core/pr_enhanced_rag.py:143-157 | a result with none of the six keys gives only the header |
| EnhancedRag.BareLines | pr-agent/pr_rag_v1/core/pr_enhanced_rag.py:148-157 | absent keys add no lines |
| EnhancedRag.Blocks | pr-agent/pr_rag_v1/core/pr_enhanced_rag.py:142-159 | one block per result on success |
| EnhancedRag.BlocksAt | pr-agent/pr_rag_v1/core/pr_enhanced_rag.py:142-159 | on success block i is the block of result i |
| EnhancedRag.BlocksFail | pr-agent/pr_rag_v1/core/pr_enhanced_rag.py:142-159 | building fails exactly when some result's block fails |
| EnhancedRag.BlocksStuck | pr-agent/pr_rag_v1/core/pr_enhanced_rag.py:142-159 | after a failed block the later results change nothing |
| EnhancedRag.ContextFirstFive | pr-agent/pr_rag_v1/core/pr_enhanced_rag.py:142 | results after the fifth do not affect the context |
| EnhancedRag.BuildBlock | pr-agent/pr_rag_v1/core/pr_enhanced_rag.py:143-157 | the block method builds the specified block |
| EnhancedRag.AppendLine | pr-agent/pr_rag_v1/core/pr_enhanced_rag.py:148-157 | one `if key in result` step appends the line for a present key only |
| EnhancedRag.BuildContext | pr-agent/pr_rag_v1/core/pr_enhanced_rag.py:138-161 | the loop joins the blocks of the first five results |
| EnhancedRag.GenerateAnswer | pr-agent/pr_rag_v1/core/pr_enhanced_rag.py:106-136 | empty results give `❌ 未找到相关信息` without asking the model; a failed block raises; otherwise the model's answer, or `❌ 回答生成失败: ` and the error |
| EnhancedRag.GenerateCypherQuery | pr-agent/pr_rag_v1/core/pr_enhanced_rag.py:84-104 | a reply gives the reply stripped, which is a stripped part of it; a model failure gives the fixed keyword query |
| EnhancedRag.GraphQuery | pr-agent/pr_rag_v1/core/pr_enhanced_rag.py:67-82 | a failed store query or a raised block gives `❌ GraphRAG查询失败: ` and the error; otherwise the answer over the results |
| EnhancedRag.Query | pr-agent/pr_rag_v1/core/pr_enhanced_rag.py:259-268 | without the graph the vector answer; with it the graph answer in all four cases: the store's error, the not-found text, the error of a raising row block, or the model's answer over the context (its failure text when it fails) |
| EnhancedRag.Field | pr-agent/pr_rag_v1/core/pr_enhanced_rag.py:295-297 | `result[key]` raises the KeyError naming the key exactly when the key is missing |
| EnhancedRag.RelInfos | pr-agent/pr_rag_v1/core/pr_enhanced_rag.py:293-299 | one relationship per row on success |
| EnhancedRag.RelInfosAt | pr-agent/pr_rag_v1/core/pr_enhanced_rag.py:293-299 | row i gives relationship i, whose type is the row's relationship_type |
| EnhancedRag.RelInfosFail | pr-agent/pr_rag_v1/core/pr_enhanced_rag.py:293-299 | building fails exactly when some row lacks one of the three keys |
| EnhancedRag.RelInfosStuck | pr-agent/pr_rag_v1/core/pr_enhanced_rag.py:293-299 | after a failed row the later rows change nothing |
| EnhancedRag.RelationshipsShape | pr-agent/pr_rag_v1/core/pr_enhanced_rag.py:270-304 | the three-entry dict with the entity name, one outgoing entry per row and an empty incoming list exactly when the query succeeds and every row has the three keys; otherwise the one-entry error dict |
| EnhancedRag.GetEntityRelationships | pr-agent/pr_rag_v1/core/pr_enhanced_rag.py:270-304 | the loop builds the relationships dict |

## Left out

- The language model, embeddings and API clients are parameters that return a reply or a failure. Prompt templates are kept only where their text reaches a result.
- `json.loads` is a parameter returning a JSON value or nothing. `json.dumps`, `str()` of a value and the list repr are parameters too.
- Python floats are decimals that are stored and passed on but never computed with. `float()` on a confidence field is a parameter, with the 0.5 default modelled. `nx.density` and the vector RAG's `score:.3f` formatting are not modelled.
- Case mapping (`lower`, `upper`) covers ASCII letters only, where Python applies Unicode rules. Whitespace (`split`, `strip`) is the full `str.isspace` set. The citation scanner's `\d` is the Unicode decimal-digit category of the Unicode 15.0 tables.
- JSON numbers are integers, and dict keys are assumed distinct, as in a Python dict.
- Python set iteration order is not modelled. Results that are built from sets are sets: matched and expanded entities, conflict names and merged imports. Where the order reaches a string, as in the first conflicting name of a resolution, a parameter chooses the element.
- KgReach.InducedFacts: the induced subgraph keeps the parent graph's node and edge order. networkx's subgraph view iterates its filtered nodes in set order, so the order of the lines in `get_triples_for_context` is that of the parent graph here.
- KgSearch.FindRelatedSound: states the discovery structure of the search (distinct entities, levels, discovering node, edges) rather than the exact list. The exact list is the reference function that the search method is proved equal to.
- File and console I/O are not modelled: reading documents, saving chunks and text, `export_to_json`, and every `print` or verbose branch. The document readers of the preprocessing step (PDF, Word, PowerPoint, Excel, HTML) are not part of this model. The chunker takes the parsed JSON file as a parameter.
- langchain's `RecursiveCharacterTextSplitter` is a parameter of the chunker.
- The rule-based taggers of the schema module are regular-expression matchers, and the model takes their results as a parameter. The regular expressions of the SPO reply recovery are modelled only as far as the anchored fallback can match.
- `analyze_agent_flow` (Python `ast`), `extract_workflow_steps` (regex), `merge_agents` and the `generate_merged_code` template are not modelled. The analyses are inputs to the merger, and the merge plan's empty `workflow` list is not represented.
- KgTriples.Accepted: the graph's nodes and labels are strings. A triple whose three fields are truthy but not all strings (a non-zero number or `true` as subject, object or predicate, or a list or dict as predicate) is added by the source with that value as node or label; the model passes over it. Lists and dicts as subject or object raise, as in the source.
- KgBuilder.KnowledgeGraphBuilder.AddTriples: inherits the gap of KgTriples.Accepted: a triple with truthy non-string fields that can be hashed is not added or counted, and a hashable non-string subject that `add_edge` makes a node before an unhashable object raises is not kept.
- EntityParsers.ParseRelationshipResponse: a relationship is a record with fixed fields. The source's dict gains its keys in the order the tag lines arrive, and that order, visible only when the dict is dumped, is not kept.
- UnifiedSystem.UnifiedQuery: the `timestamp` field (the clock) is not modelled, and neither is the outer `except` that wraps a failure of the dispatch. `query_knowledge` and `analyze_entities` are parameters.
- The vector RAG (`EnhancedPRVectorRAG.query`) is a parameter of EnhancedRag.Query. `get_brand_collaborations` and `get_media_strategies` only run fixed Cypher queries against the store, and are not modelled.
- Neo4j, Chroma, the Cypher texts sent to them, and the upload, edit and query tools around them are not modelled; the enhanced RAG takes the store's answers as a parameter.
- The menus, demos, tests, configuration loaders and the async tool server are not modelled.
