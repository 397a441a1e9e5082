# Dementia-agent knowledge graph, modelled in Dafny

This project models the core of `hrisr_project`. That core is the knowledge base a conversational agent uses to ground its answers about the relatives and appointments of a person with dementia. It has four parts:

- **The knowledge graph** (`KnowledgeGraph`, graph.py). It is a networkx `MultiDiGraph` whose nodes carry a `type` (`NodeType.PERSON` or `NodeType.EVENT`) and a `data` payload (`asdict` of a `PersonData` or `EventData`). Its edges are labelled with a `relation`. It is built by `add_person`, `add_event`, `connect` and `from_config`.
- **The retriever** (`Retriever`, retriever.py). It keeps the embedding cache of the graph's nodes and ranks cached nodes against a query. It renders the initial context and the information texts handed to the language model. It also lets the model add events through `add_event`.
- **The function registry** (gemini_functions.py). It maps each function name to the function, refuses a duplicate name, fails on an unknown one, and lists the functions in registration order.
- **The input rules** (util.py). These are the yes/no, `HH:MM` and weekday rules of the interactive prompts.

The modules follow those parts:

| file | module | models |
|---|---|---|
| wrappers.dfy | `Wrappers` | `Option`, `Result`, and the Python exceptions that can occur |
| dicts.dfy | `Dicts` | a Python `dict`: insertion-ordered keys plus a map; assignment keeps a key's position |
| strings.dfy | `Strings` | `strip`, `lower`, `upper`, `capitalize` over ASCII letters, and the whitespace set of `str.isspace` |
| validation.dfy | `Validation` | util.py: the accept rules and the retry loops |
| graph.dfy | `Graph` | graph.py: graph state, node payloads, `add_node`/`add_edge` semantics, graph queries, class `KnowledgeGraph` |
| ranking.dfy | `Ranking` | the stable descending sort by score, and the slice `[:n]` |
| retriever.dfy | `Retrieval` | retriever.py: embedding cache, top-N ranking, category filter, output strings, `add_event`, class `Retriever` |
| registry.dfy | `Registry` | gemini_functions.py: class `FunctionRegistry` and the import-time registrations |

**How the graph is modelled.** The graph state is an insertion-ordered node table (id to attributes) plus the sequence of `(src, dst, relation)` edges. Parallel edges are kept.

- `add_node` on an existing id replaces its attributes in place. The node keeps its position and its edges.
- `add_edge` first creates each missing endpoint with no attributes (a *bare* node), then appends the edge.

**Graph queries graph.py does not define.** retriever.py calls `get_nodes`, `get_neighbors`, `node_to_text` and `nodes_to_text`, but graph.py does not define them. They are declared as follows:

- `get_nodes` gives the node ids in insertion order.
- `get_neighbors(id, d)` gives the nodes reachable from `id` over at most `d` outgoing edges. Distance 0 is the node alone; distance 1 adds its direct successors. This follows the docstring at retriever.py:23-25.
- The two text renderers are functions of the graph state, supplied to the constructor (`TextRenderer`) and otherwise uninterpreted.

**Ollama.** The embedding model and the cosine score are an `Embedder` supplied to the `Retriever` constructor, also uninterpreted. Scores are reals, and only their order matters.

**Interactive input.** Each `while True` retry loop of util.py is a method over the finite sequence of answers the user gives. It returns the result for the first acceptable answer and how many answers it read, or `None` when the answers run out.

**Points where the code behaves otherwise than its names suggest; the model follows the code:**

- `connect` does not fail on an unknown endpoint; networkx creates it.
- `EventData` declares only `time`, `day`, `title` and `location`, with no `description`; `PersonData` declares only `name` and `age`.
- `add_event` does not validate time or day.
- Errors are Python's own: `ValueError`, `KeyError`, `TypeError`, `AttributeError`, `IndexError`.
- The filter of `retrieve_information` and the event construction of `add_event` both fail as written; see "## Findings".

## Model

Some definitions carry no contract of their own; the rows of the lemmas about them state their properties:

- `Retrieval.Refreshed` (retriever.py:38-42): `Retrieval.RefreshedShape`, `Retrieval.RefreshedFromEmpty`, `Retrieval.RefreshedIdempotent`.
- `Retrieval.Rank` (retriever.py:56-63): `Retrieval.RankFailsOnEmptyCache`, `Retrieval.RankedAreCached`, `Retrieval.RankedInScoreOrder`, `Retrieval.RankedAreBest`, `Retrieval.RankedTiesKeepCacheOrder`, `Retrieval.RankedIdsOfItems`.
- `Retrieval.TypeFilter` and `Retrieval.CategoryFilter` (retriever.py:117-121, corrected): `Retrieval.TypeFilterKnown`, `Retrieval.TypeFilterUnknown`, `Retrieval.CategoryFilterAll`, `Retrieval.CategoryFilterEmptyGraph`.
- `Retrieval.CategoryFilterAsWritten` (retriever.py:119 as written): `Retrieval.CategoryFilterAsWrittenFails`, `Retrieval.CategoryFilterDiscrepancy`.
- `Retrieval.Participated` (retriever.py:162-164): `Retrieval.ParticipatedShape`.
- `Graph.Neighbors` (retriever.py:23-25): `Graph.NeighborsHaveWalks`, `Graph.WalksReachNeighbors`, `Graph.DirectNeighbors`, `Graph.NeighborsInGraph`, `Graph.NeighborsGrow`, `Graph.NeighborsContainNode`.
- `Registry.Registered` (gemini_functions.py:38-41): `Registry.RegisteredFiled`, `Registry.RegisteredAppendOnly`, `Registry.RegisteredListedLast`.

| member | source | states |
|---|---|---|
| `Validation.AcceptYesOrNo` | dementia_agent/util.py:15-19 | an answer means yes exactly when its stripped, lower-cased form is `yes` or `y`, and no exactly when it is `no` or `n`; anything else is rejected |
| `Validation.AcceptTime` | dementia_agent/util.py:34-38 | an answer is accepted exactly when its stripped form parses as `%H:%M`, and the stripped form is what is returned |
| `Validation.AcceptDay` | dementia_agent/util.py:53-56 | an answer is accepted exactly when its stripped form, lower-cased, is one of the seven weekday names; the result is the `capitalize()` of the stripped form |
| `Validation.AcceptedDayIsCanonical` | dementia_agent/util.py:55-56 | an accepted day is always one of `Monday` … `Sunday` and names the same day as the input, whatever the input's case |
| `Validation.CanonicalDay` | dementia_agent/util.py:55-56 | `capitalize()` of any casing of a weekday name is the canonical name of that day |
| `Validation.CapitalizedWeekday` | dementia_agent/util.py:56 | capitalizing a lower-case weekday name yields one of the seven canonical names |
| `Validation.HourFieldMeaning` | dementia_agent/util.py:37 | the `%H` field accepts one or two digits with value below 24, and nothing else |
| `Validation.MinuteFieldMeaning` | dementia_agent/util.py:37 | the `%M` field accepts one or two digits with value below 60, and nothing else |
| `Validation.HourMinuteIsSplit` | dementia_agent/util.py:37 | a string parses as `%H:%M` exactly when it splits at a `:` into an hour field and a minute field |
| `Validation.ClockTimesAccepted` | dementia_agent/util.py:37 | every clock time, written with two-digit hour and minute from 00:00 to 23:59, is accepted |
| `Validation.HourMinuteExamples` | dementia_agent/util.py:37 | `25:61`, `24:00`, `12:60`, the empty string, `0855` and ` 08:55` are rejected; `08:55`, `23:59` and `9:5` are accepted |
| `Validation.FirstAccepted` | dementia_agent/util.py:14-21 | the shared retry loop of the three prompts: the first answer `accept` takes decides the result, each earlier answer was refused, and none after it is read; `None` only when `accept` refuses every answer |
| `Validation.GetYesOrNo` | dementia_agent/util.py:14-21 | the result is that of the first acceptable answer, every earlier answer was rejected, and no answer after it is read; `None` only when every answer was rejected |
| `Validation.GetTime` | dementia_agent/util.py:33-40 | the stripped first answer that parses as `%H:%M`, every earlier one rejected; `None` only when none parses |
| `Validation.GetDay` | dementia_agent/util.py:52-58 | the capitalized first answer that names a weekday, every earlier one rejected; `None` only when none does |
| `Strings.StripIdempotent` | dementia_agent/util.py:34 | stripping a stripped answer changes nothing |
| `Strings.TrimStartShape` | dementia_agent/util.py:15 | leading whitespace removal drops exactly a run of whitespace and stops at the first other character |
| `Strings.TrimEndShape` | dementia_agent/util.py:53 | trailing whitespace removal drops exactly a run of whitespace and stops at the last other character |
| `Strings.CapitalizeIgnoresCase` | dementia_agent/util.py:56 | answers that agree when lower-cased capitalize to the same string |
| `Strings.LowerOfCapitalize` | dementia_agent/util.py:55-56 | lower-casing a capitalized answer gives the lower-cased answer, so the check and the returned day agree |
| `Strings.LowerIdempotent` | dementia_agent/util.py:55 | lower-casing twice is lower-casing once |
| `Graph.NodeTypeNamed` | dementia_agent/knowledge_graph/retriever.py:119 | `NodeType[name]` succeeds exactly for `PERSON` and `EVENT`, with the member of that name, and raises `KeyError(name)` otherwise |
| `Graph.NodeTypeNamedInverse` | dementia_agent/knowledge_graph/graph.py:8-10 | each node type is found again under its own name |
| `Graph.PersonRoundTrip` | dementia_agent/knowledge_graph/graph.py:18-20 | `to_dict()` of a person is a dict with keys `name`, `age` in that order, from which the person is recovered |
| `Graph.PersonFromDictInverse` | dementia_agent/knowledge_graph/graph.py:18-20 | every payload of that shape is the `to_dict()` of exactly the person read from it |
| `Graph.EventRoundTrip` | dementia_agent/knowledge_graph/graph.py:30-32 | `to_dict()` of an event has keys `time`, `day`, `title`, `location` in that order, and the event is recovered from it |
| `Graph.EventFromDictInverse` | dementia_agent/knowledge_graph/graph.py:30-32 | every payload of that shape is the `to_dict()` of exactly the event read from it |
| `Graph.Keyword` | dementia_agent/knowledge_graph/graph.py:23-28 | a keyword argument is found exactly when the call passes it, and the value found is the one passed with its first occurrence |
| `Graph.Unexpected` | dementia_agent/knowledge_graph/graph.py:23-28 | the dataclass constructor finds an undeclared keyword exactly when the call passes one, and reports one that was passed |
| `Graph.MakeEvent` | dementia_agent/knowledge_graph/graph.py:23-28 | `EventData(**kwargs)` succeeds exactly when every keyword is a field and all four fields are given, each field taking its keyword's value; otherwise `TypeError`, for an undeclared keyword first, then for a missing field |
| `Graph.AttributesDetermineNode` | dementia_agent/knowledge_graph/graph.py:39-45 | the `type` and `data` attributes a node is given determine the record it holds |
| `Graph.EmptyGraph` | dementia_agent/knowledge_graph/graph.py:36-37 | a new graph has no nodes and no edges |
| `Graph.AddNodeShape` | dementia_agent/knowledge_graph/graph.py:40 | adding a node sets its attributes and keeps every edge and every other node; a new id is appended, while an existing id keeps its position |
| `Graph.EnsureNodeShape` | dementia_agent/knowledge_graph/graph.py:48 | `add_edge` creates a missing endpoint as a bare node at the end and leaves existing nodes as they were |
| `Graph.EnsureEndpointsOrder` | dementia_agent/knowledge_graph/graph.py:48 | missing endpoints are created source first, then destination |
| `Graph.EnsureEndpointsShape` | dementia_agent/knowledge_graph/graph.py:48 | after both endpoints are ensured, the nodes are the old ones plus the endpoints, old attributes unchanged and new ones bare |
| `Graph.AddEdgeShape` | dementia_agent/knowledge_graph/graph.py:48 | `add_edge` appends exactly the edge `src→dst` with its label, keeps every earlier edge, and only creates missing endpoints |
| `Graph.ConnectShape` | dementia_agent/knowledge_graph/graph.py:47-50 | `connect` appends `src→dst`, and then `dst→src` only when bidirectional, both with the same label; it removes no edge and changes no existing node |
| `Graph.WithConnectionEdges` | dementia_agent/knowledge_graph/graph.py:47-50 | the edges after `connect` are the old edges followed by the connection's one or two edges |
| `Graph.AddAllShape` | dementia_agent/knowledge_graph/graph.py:56-59 | adding nodes in turn appends the new ids in order, gives each its attributes, and keeps the edges and all other nodes |
| `Graph.ApplyConnectionsEdges` | dementia_agent/knowledge_graph/graph.py:61-62 | applying connections in list order appends their edges in that order |
| `Graph.ApplyConnectionsWellformed` | dementia_agent/knowledge_graph/graph.py:61-62 | applying connections keeps the graph well formed |
| `Graph.ApplyConnectionsNodes` | dementia_agent/knowledge_graph/graph.py:61-62 | applying connections adds only the missing endpoints, in order of appearance and bare, leaving other nodes unchanged |
| `Graph.ApplyConnectionsShape` | dementia_agent/knowledge_graph/graph.py:61-62 | the combined effect of the connections on edges and nodes |
| `Graph.PopulatedAfterPeople` | dementia_agent/knowledge_graph/graph.py:56-57 | after the people loop, the graph holds exactly the people, in dict order, as PERSON nodes and with no edges |
| `Graph.PopulatedShape` | dementia_agent/knowledge_graph/graph.py:55-59 | after people and then events, an id present in both is an EVENT node at the position of its person entry |
| `Graph.ConfiguredEdges` | dementia_agent/knowledge_graph/graph.py:53-63 | the edges of a configured graph are exactly the connections' edges, in list order |
| `Graph.ConfiguredNodeOrder` | dementia_agent/knowledge_graph/graph.py:53-63 | the node order is first occurrence over people, then events, then connection endpoints |
| `Graph.ConfiguredAttributes` | dementia_agent/knowledge_graph/graph.py:53-63 | events win over people with the same id; endpoints named only by connections are bare nodes |
| `Graph.ConfiguredOrder` | dementia_agent/knowledge_graph/graph.py:53-63 | with disjoint people and events and connections over known ids, the nodes are the people followed by the events |
| `Graph.NeighborsContainNode` | dementia_agent/knowledge_graph/retriever.py:23-25 | a node is always among its own neighbours, at every distance |
| `Graph.NeighborsHaveWalks` | dementia_agent/knowledge_graph/retriever.py:23-25 | every neighbour within distance d is reached by a directed walk of at most d edges |
| `Graph.WalksReachNeighbors` | dementia_agent/knowledge_graph/retriever.py:23-25 | the end of every directed walk of at most d edges is a neighbour within distance d |
| `Graph.DirectNeighbors` | dementia_agent/knowledge_graph/retriever.py:23-25 | the neighbours at distance 1 are exactly the node and its direct successors |
| `Graph.NeighborsInGraph` | dementia_agent/knowledge_graph/retriever.py:23-25 | every neighbour other than the node itself is a node of the graph |
| `Graph.NeighborsGrow` | dementia_agent/knowledge_graph/retriever.py:23-25 | neighbourhoods grow with the distance |
| `Graph.KnowledgeGraph.constructor` | dementia_agent/knowledge_graph/graph.py:36-37 | a new knowledge graph is empty |
| `Graph.KnowledgeGraph.AddPerson` | dementia_agent/knowledge_graph/graph.py:39-41 | returns the id; the node then has type PERSON and exactly the person's payload, and the edges are unchanged |
| `Graph.KnowledgeGraph.AddEvent` | dementia_agent/knowledge_graph/graph.py:43-45 | returns the id; the node then has type EVENT and exactly the event's payload, and the edges are unchanged |
| `Graph.KnowledgeGraph.Connect` | dementia_agent/knowledge_graph/graph.py:47-50 | appends the connection's edges and nothing else; with both endpoints present, the nodes are unchanged |
| `Graph.KnowledgeGraph.GetNodes` | dementia_agent/knowledge_graph/retriever.py:163 | each node once, and only nodes |
| `Graph.KnowledgeGraph.GetNeighbors` | dementia_agent/knowledge_graph/retriever.py:127 | contains the node itself and otherwise only nodes of the graph |
| `Graph.KnowledgeGraph.AddPeople` | dementia_agent/knowledge_graph/graph.py:56-57 | the loop adds every person, in dict order |
| `Graph.KnowledgeGraph.AddEvents` | dementia_agent/knowledge_graph/graph.py:58-59 | the loop adds every event, in dict order |
| `Graph.KnowledgeGraph.ConnectAll` | dementia_agent/knowledge_graph/graph.py:61-62 | the loop applies every connection, in list order |
| `Graph.KnowledgeGraph.FromConfig` | dementia_agent/knowledge_graph/graph.py:52-63 | a fresh graph in the state of people, then events, then connections |
| `Ranking.Insert` | dementia_agent/knowledge_graph/retriever.py:58 | inserting an item adds exactly that item to the rest |
| `Ranking.SortDesc` | dementia_agent/knowledge_graph/retriever.py:58 | the sorted items are a permutation of the items |
| `Ranking.SortDescNonIncreasing` | dementia_agent/knowledge_graph/retriever.py:58 | the sorted items come in non-increasing order of score |
| `Ranking.SortDescStable` | dementia_agent/knowledge_graph/retriever.py:58 | items of equal score keep their relative order |
| `Ranking.SortDescDistinct` | dementia_agent/knowledge_graph/retriever.py:58 | sorting introduces no repetition |
| `Ranking.SortDescItems` | dementia_agent/knowledge_graph/retriever.py:58 | sorting keeps the number of items and the score of every key |
| `Ranking.SortDescKeys` | dementia_agent/knowledge_graph/retriever.py:58 | sorting loses no key |
| `Ranking.DistinctFirsts` | dementia_agent/knowledge_graph/retriever.py:63 | distinct items scored by key have distinct keys |
| `Ranking.TopInOrder` | dementia_agent/knowledge_graph/retriever.py:63 | the first n keys of the sorted items are in non-increasing order of score |
| `Ranking.TopAreBest` | dementia_agent/knowledge_graph/retriever.py:63 | no key left out of the first n scores higher than a key kept |
| `Ranking.Take` | dementia_agent/knowledge_graph/retriever.py:63 | `[:n]` is the prefix that ends where the slice stops |
| `Ranking.TakeMeaning` | dementia_agent/knowledge_graph/retriever.py:63 | `[:n]` keeps at most n items, exactly n when n is below the length, everything once n reaches the length, all but the last -n items for a negative n down to minus the length, and nothing below that |
| `Ranking.TakeDistinct` | dementia_agent/knowledge_graph/retriever.py:63 | a slice holds only items of the sequence, without repetition |
| `Retrieval.Candidates` | dementia_agent/knowledge_graph/retriever.py:39 | the ids to embed are exactly the graph's nodes other than `user` |
| `Retrieval.CandidatesDistinct` | dementia_agent/knowledge_graph/retriever.py:39 | each is embedded once |
| `Retrieval.RefreshedShape` | dementia_agent/knowledge_graph/retriever.py:38-42 | after computing embeddings, every node except `user` maps to the embedding of its text; no other key is added; newly embedded ids follow the old keys in node order; other entries are unchanged |
| `Retrieval.RefreshedFromEmpty` | dementia_agent/knowledge_graph/retriever.py:38-42 | from an empty cache, the keys are exactly the non-`user` nodes in node order; `user` is never a key; the cache stays empty exactly when the graph has no node but `user` |
| `Retrieval.RefreshedIdempotent` | dementia_agent/knowledge_graph/retriever.py:38-42 | computing embeddings twice on the same graph gives the same cache as once |
| `Retrieval.ScoresOfCache` | dementia_agent/knowledge_graph/retriever.py:57 | the scored items are distinct, cover exactly the cache's keys in order, and carry each key's score |
| `Retrieval.SortedScores` | dementia_agent/knowledge_graph/retriever.py:58 | the sorted scores have one item per cache key, in non-increasing order, each with its key's score |
| `Retrieval.SortedIds` | dementia_agent/knowledge_graph/retriever.py:58 | the ids in the sorted scores are exactly the cached ids |
| `Retrieval.SortedIdsDistinct` | dementia_agent/knowledge_graph/retriever.py:58 | and each occurs once |
| `Retrieval.RankFailsOnEmptyCache` | dementia_agent/knowledge_graph/retriever.py:63 | ranking raises exactly when the cache is empty, and then with `IndexError` |
| `Retrieval.RankedAreCached` | dementia_agent/knowledge_graph/retriever.py:63 | the matches are distinct cached ids, as many as the slice `[:top_n]` keeps of the cache |
| `Retrieval.RankedInScoreOrder` | dementia_agent/knowledge_graph/retriever.py:57-63 | the matches are in non-increasing order of score |
| `Retrieval.RankedAreBest` | dementia_agent/knowledge_graph/retriever.py:57-63 | no cached id left out scores higher than a match |
| `Retrieval.RankedTiesKeepCacheOrder` | dementia_agent/knowledge_graph/retriever.py:58-63 | among matches of equal score, the order is the cache's insertion order, and they are the first of that score in the cache |
| `Retrieval.RankedIdsOfItems` | dementia_agent/knowledge_graph/retriever.py:63 | the matches are the ids of the first top_n sorted items |
| `Retrieval.TypeFilterKnown` | dementia_agent/knowledge_graph/retriever.py:119 | for a known category, the filter keeps exactly the nodes of that type; it raises `KeyError('type')` exactly when some node has no type |
| `Retrieval.TypeFilterUnknown` | dementia_agent/knowledge_graph/retriever.py:119 | for an unknown category, the filter raises on its first node: `KeyError` of the upper-cased category, or of `type` for a bare node |
| `Retrieval.CategoryFilterAll` | dementia_agent/knowledge_graph/retriever.py:117-121 | with no category, every node is a candidate, and there are none exactly when the graph is empty |
| `Retrieval.CategoryFilterEmptyGraph` | dementia_agent/knowledge_graph/retriever.py:117-121 | an empty graph gives no candidates, whatever the category |
| `Retrieval.CategoryFilterAsWrittenFails` | dementia_agent/knowledge_graph/retriever.py:119 | as written, any non-empty category on a non-empty graph raises |
| `Retrieval.CategoryFilterDiscrepancy` | dementia_agent/knowledge_graph/retriever.py:119 | on a graph with the single person `user`, the filter as written raises `AttributeError`, while the intended filter yields `[user]` |
| `Retrieval.InfoTextConcat` | dementia_agent/knowledge_graph/retriever.py:125-129 | the information text of a list of matches is the concatenation of the texts of its parts |
| `Retrieval.InfoTextSingle` | dementia_agent/knowledge_graph/retriever.py:127-129 | one match gives `Info on {m}:\n{text}\n`, rendering the node and exactly its direct successors |
| `Retrieval.SourceEventCallRejected` | dementia_agent/knowledge_graph/retriever.py:153-159 | the event construction as written always raises `TypeError` for `description` |
| `Retrieval.IntendedEventCallAccepted` | dementia_agent/knowledge_graph/retriever.py:153-159 | without `description`, the construction yields the event with the given time, day, title and location |
| `Retrieval.ParticipatedShape` | dementia_agent/knowledge_graph/retriever.py:162-164 | connecting the participants to an existing event keeps all nodes and appends one `name→event` edge per listed occurrence of an existing node, in list order, skipping unknown names |
| `Retrieval.Retriever.constructor` | dementia_agent/knowledge_graph/retriever.py:17-31 | a new retriever has an empty cache over the given graph and settings |
| `Retrieval.Retriever.ComputeNodeEmbeddings` | dementia_agent/knowledge_graph/retriever.py:33-42 | the loop leaves the cache refreshed from the graph's current nodes |
| `Retrieval.Retriever.GetMatchingNode` | dementia_agent/knowledge_graph/retriever.py:45-63 | fills the cache only when it is empty and otherwise leaves it as it is (so nodes added later are never matched); the result is the ranking of the cache |
| `Retrieval.Retriever.GetInitialContext` | dementia_agent/knowledge_graph/retriever.py:83-101 | raises exactly when the time does not parse as `%H:%M` or the day is not a weekday name, checking the time first; otherwise `{time}\n{location}\nUser information:\n{info}`, where info renders the user's distance-0 neighbourhood |
| `Retrieval.Retriever.RetrieveInformation` | dementia_agent/knowledge_graph/retriever.py:103-131 | with the corrected filter of line 119 (see "## Findings"): a filter error propagates; no candidates gives exactly the no-information message; otherwise the concatenated blocks of the top-2 matches over the whole cache, ignoring the category |
| `Retrieval.Retriever.DescribeMatches` | dementia_agent/knowledge_graph/retriever.py:125-129 | the loop accumulates exactly the information text of the matches |
| `Retrieval.Retriever.AddEventWith` | dementia_agent/knowledge_graph/retriever.py:150-172 | with any event constructor: a failed construction gives the failure message and an unchanged graph; otherwise the success message, an existing event kept, a new one added, and the participants connected |
| `Retrieval.Retriever.ConnectParticipants` | dementia_agent/knowledge_graph/retriever.py:162-164 | the loop connects exactly the listed names that are nodes, in order |
| `Retrieval.Retriever.AddEvent` | dementia_agent/knowledge_graph/retriever.py:133-172 | never raises; as written, a new event gives the failure message with the graph unchanged, while an existing event gives the success message, unchanged nodes, and one new edge per known participant occurrence |
| `Retrieval.Retriever.AddEventIntended` | dementia_agent/knowledge_graph/retriever.py:150-172 | with the construction corrected, always the success message; a new event is added with its payload before the participants are connected |
| `Retrieval.Retriever.RetrieveNodes` | dementia_agent/knowledge_graph/retriever.py:174-181 | the graph's nodes in insertion order, each once |
| `Registry.RegisteredFiled` | dementia_agent/gemini/gemini_functions.py:38-41 | registering keeps every function filed under its own name |
| `Registry.RegisteredAppendOnly` | dementia_agent/gemini/gemini_functions.py:38-40 | no registration removes, moves or overwrites an entry; a refused one raises `Function '{name}' is already registered.` and changes nothing |
| `Registry.RegisteredListedLast` | dementia_agent/gemini/gemini_functions.py:38-41 | a new name is registered, the function itself is returned, found under its name, and listed last |
| `Registry.RegisterAllFresh` | dementia_agent/gemini/gemini_functions.py:38-41 | registering functions with new, distinct names in turn succeeds and lists them after the others, in order |
| `Registry.FiledNames` | dementia_agent/gemini/gemini_functions.py:61-68 | the listed functions carry the registry's keys, in order |
| `Registry.ImportedRegistry` | dementia_agent/gemini/gemini_functions.py:71-117 | after import the registry holds exactly `get_information`, `show_person` and `play_audio`, in that order |
| `Registry.AgentRegistered` | dementia_agent/agent.py:13-15 | one agent then adds its retriever's `retrieve_information`, `add_event` and `retrieve_nodes`, listed after the module's functions |
| `Registry.SecondAgentRejected` | dementia_agent/agent.py:13 | a second agent is refused on `retrieve_information` and the registry stays as it was |
| `Registry.FunctionRegistry.constructor` | dementia_agent/gemini/gemini_functions.py:26 | the registry starts empty |
| `Registry.FunctionRegistry.RegisterFunction` | dementia_agent/gemini/gemini_functions.py:27-41 | the registry and result are those of one registration: refused for a known name, appended otherwise |
| `Registry.FunctionRegistry.FunctionFromRegistry` | dementia_agent/gemini/gemini_functions.py:44-58 | succeeds exactly for a registered name, with the function filed under it; otherwise `ValueError` with `Function '{name}' is not registered.` |
| `Registry.FunctionRegistry.GetFunctions` | dementia_agent/gemini/gemini_functions.py:61-68 | every registered function exactly once, in registration order |
| `Registry.ImportSteps` | dementia_agent/gemini/gemini_functions.py:71-117 | each of the three registrations made at import succeeds, and together they leave a well-formed registry listing exactly the three functions, in order |
| `Registry.FunctionRegistry.ImportModule` | dementia_agent/gemini/gemini_functions.py:71-117 | the three decorated definitions leave a registry listing exactly them, in order |

## Left out

- `ollama.pull` and `ollama.embed` (retriever.py:29, 41, 56) are an external model. The embedding is an uninterpreted function of the model name and the text.
- `cosine_similarity` (retriever.py:8-12) is floating point with a square root. Its division by zero for a zero vector is not modelled: the score is an uninterpreted total function to reals.
- `visualize_graph` (retriever.py:166) and visualize.py are an HTML export through PyVis. `add_event` is modelled as if that call returns normally. The `build.lib` import path of retriever.py:4 is not modelled either.
- Every `logging` and `print` side effect is left out, as are the prompt texts of util.py.
- `node_to_text` and `nodes_to_text` are not defined in graph.py. Their output is uninterpreted, and so is the text of `str(self.retrieve_nodes())` in the failure message of `add_event`.
- `retrieval_distance` is stored by the constructor but never read by the code. The model stores it too.
- `from_config` reads each connection tuple as `(src, relation, dst)`, which leaves `bidirectional` at `False`. A `Connection` carries the flag so that four-tuples are covered too.
- Strings: the case mappings and `%H`/`%M` digits are ASCII only. Python also lower-cases and capitalizes non-ASCII letters, matches `%A` case-insensitively over Unicode, and accepts non-ASCII decimal digits in `%H` and `%M`.
- Retrieval.Retriever.RetrieveInformation: follows the corrected filter of the retriever.py:119 row of "## Findings". As written, that line raises `AttributeError` (or `KeyError` for a bare node) for every non-empty category over a non-empty graph, and that path of the method is stated only by `Retrieval.CategoryFilterAsWrittenFails`, not by a method of its own.
- Python default arguments are not modelled; every caller passes them explicitly: `get_initial_context` (retriever.py:66-70, defaults `"08:55"`, `"Monday"`, `"Living Room"`) in `Retrieval.Retriever.GetInitialContext`, `top_n=1` (retriever.py:45) in `Retrieval.Retriever.GetMatchingNode`, `category=""` (retriever.py:103) in `Retrieval.Retriever.RetrieveInformation`, and `bidirectional=False` (graph.py:47) in `Graph.KnowledgeGraph.Connect`.
- Validation.GetYesOrNo, Validation.GetTime and Validation.GetDay: an exhausted answer sequence gives `None`. `input()` would raise `EOFError` there instead.
- gemini_functions.py:3 imports `retrieve_information` from graph.py, which does not define it. As written, importing the module raises `ImportError`. The registry is modelled as if that import succeeded, and the body of `get_information` (line 84) is not modelled.
- The bodies of `show_person` and `play_audio` only print and return `True`. They are not modelled; only their registration is.
- `GeminiFunction` and `AllowedParams` are type hints only.
- gemini.py, graph_interface.py, agent.py's chat loop and scripts/conversation.py are not part of this model. agent.py:13-15 is used only as a registration scenario.
- networkx internals beyond the `add_node`/`add_edge` behaviour described above are left out.

## Findings

| source | as written | input that shows it | evidently intended | confidence | as-written member | corrected member |
|---|---|---|---|---|---|---|
| dementia_agent/knowledge_graph/retriever.py:119 | the filter reads `data['data'].node_type`, but `data` is the plain dict of `to_dict()` and the tag is stored under `type` | a graph holding only the person `user` and category `PERSON` raises `AttributeError` (`Retrieval.CategoryFilterDiscrepancy`); every non-empty category on a non-empty graph raises (`Retrieval.CategoryFilterAsWrittenFails`) | keep the nodes whose `type` is `NodeType[category.upper()]` | not executed | `Retrieval.CategoryFilterAsWritten` | `Retrieval.CategoryFilter` |
| dementia_agent/knowledge_graph/retriever.py:153-159 | `EventData(..., description=description, ...)` passes a keyword the dataclass does not declare | any call of `add_event` with an event id not yet in the graph raises `TypeError`, which is caught, so the failure message comes back and the graph is unchanged (`Retrieval.SourceEventCallRejected`) | construct the event from title, time, day and location only | not executed | `Retrieval.Retriever.AddEvent` | `Retrieval.Retriever.AddEventIntended` |
