/**
 * `Retriever`: the embedding cache kept beside the knowledge graph, the top-N
 * selection of the nodes matching a query, the context and information texts
 * handed to the language model, and `add_event`, through which the language
 * model changes the graph.
 *
 * The embedding model and the cosine score are left uninterpreted: they are
 * fields of an `Embedder` given to the constructor. Only the order of scores
 * matters to the model.
 */
module Retrieval {
  import opened Wrappers
  import opened Dicts
  import opened Strings
  import opened Validation
  import opened Graph
  import opened Ranking

  type Vector = seq<real>

  /** `self.embeds`: node id to embedding, in the order the ids were first embedded. */
  type Cache = Dict<NodeId, Vector>

  /** The node of the elder, which is never embedded. */
  const User: NodeId := "user"

  datatype Embedder = Embedder(
    /** `ollama.embed(input=text, model=model)['embeddings'][0]` */
    embed: (string, string) -> Vector,
    /** `cosine_similarity(a, b)` */
    similarity: (Vector, Vector) -> real)

  // The embedding cache

  /** The nodes `compute_node_embeddings` embeds, in node order: all but `user`. */
  function Candidates(ids: seq<NodeId>): (r: seq<NodeId>)
    ensures forall x :: x in r <==> x in ids && x != User
    decreases |ids|
  {
    if ids == [] then []
    else (if ids[0] == User then [] else [ids[0]]) + Candidates(ids[1..])
  }

  lemma {:induction false} CandidatesDistinct(ids: seq<NodeId>)
    requires Distinct(ids)
    ensures Distinct(Candidates(ids))
    decreases |ids|
  {
    if ids != [] {
      DistinctHead(ids);
      CandidatesDistinct(ids[1..]);
      DistinctConcat(if ids[0] == User then [] else [ids[0]], Candidates(ids[1..]));
    }
  }

  /** The embedding of a node's text in graph `g`, as `compute_node_embeddings` computes it. */
  function NodeEmbedding(e: Embedder, model: string, r: TextRenderer, g: GraphState): NodeId -> Vector {
    id => e.embed(model, r.nodeText(g, id))
  }

  /** The cache after `compute_node_embeddings` on a graph in state `g`. */
  function Refreshed(cache: Cache, e: Embedder, model: string, r: TextRenderer, g: GraphState): Cache {
    PutAll(cache, Pairs(Candidates(g.nodes.keys), NodeEmbedding(e, model, r, g)))
  }

  /**
   * `compute_node_embeddings` gives every node but `user` the embedding of its
   * text, adds no other key, and appends the newly embedded ids in node order.
   */
  lemma RefreshedShape(cache: Cache, e: Embedder, model: string, r: TextRenderer, g: GraphState)
    requires Valid(cache) && Wellformed(g)
    ensures var c := Refreshed(cache, e, model, r, g);
      && Valid(c)
      && c.keys == AppendNew(cache.keys, Candidates(g.nodes.keys))
      && (forall x :: x in c.entries <==> x in cache.entries || (x in g.nodes.entries && x != User))
      && (forall x :: x in g.nodes.entries && x != User ==> c.entries[x] == e.embed(model, r.nodeText(g, x)))
      && (forall x :: x in cache.entries && (x !in g.nodes.entries || x == User) ==> c.entries[x] == cache.entries[x])
  {
    KeysMembership(g.nodes);
    PutAllPairs(cache, Candidates(g.nodes.keys), NodeEmbedding(e, model, r, g));
  }

  /**
   * Filling the empty cache embeds exactly the nodes but `user`, in node order;
   * it stays empty exactly when `user` is the only node, or there is none.
   */
  lemma RefreshedFromEmpty(e: Embedder, model: string, r: TextRenderer, g: GraphState)
    requires Wellformed(g)
    ensures var c := Refreshed(Empty(), e, model, r, g);
      && c.keys == Candidates(g.nodes.keys)
      && User !in c.entries
      && (c.entries == map[] <==> forall x :: x in g.nodes.entries ==> x == User)
  {
    var c := Refreshed(Empty(), e, model, r, g);
    RefreshedShape(Empty(), e, model, r, g);
    CandidatesDistinct(g.nodes.keys);
    AppendNewFresh([], Candidates(g.nodes.keys));
    assert [] + Candidates(g.nodes.keys) == Candidates(g.nodes.keys);
    if c.entries != map[] {
      var x :| x in c.entries;
      assert x in g.nodes.entries && x != User;
    }
  }

  /** Embedding the same graph again changes nothing. */
  lemma RefreshedIdempotent(cache: Cache, e: Embedder, model: string, r: TextRenderer, g: GraphState)
    requires Valid(cache)
    ensures Refreshed(Refreshed(cache, e, model, r, g), e, model, r, g) == Refreshed(cache, e, model, r, g)
  {
    PutAllIdempotent(cache, Pairs(Candidates(g.nodes.keys), NodeEmbedding(e, model, r, g)));
  }

  // Ranking the cache against a query

  /** `{id: cosine_similarity(query_embed, v) for id, v in self.embeds.items()}` as its items, in cache order. */
  function Scores(cache: Cache, similarity: (Vector, Vector) -> real, q: Vector): (s: seq<(NodeId, real)>)
    requires Valid(cache)
    ensures |s| == |cache.keys|
    ensures forall i :: 0 <= i < |s| ==> s[i] == (cache.keys[i], similarity(q, cache.entries[cache.keys[i]]))
  {
    seq(|cache.keys|, i requires 0 <= i < |cache.keys| => (cache.keys[i], similarity(q, cache.entries[cache.keys[i]])))
  }

  /** The score of each cached node against the query. */
  function Scoring(cache: Cache, e: Embedder, model: string, query: string): map<NodeId, real> {
    map id | id in cache.entries :: e.similarity(e.embed(model, query), cache.entries[id])
  }

  /**
   * The value of `get_matching_node(query, top_n)` once the cache is filled:
   * `list(zip(*sorted_nodes))[0][:top_n]`, where indexing the empty list that
   * `zip` gives for an empty cache raises `IndexError`.
   */
  function Rank(cache: Cache, e: Embedder, model: string, query: string, topN: int): Result<seq<NodeId>>
    requires Valid(cache)
  {
    var sorted := SortDesc(Scores(cache, e.similarity, e.embed(model, query)));
    if sorted == [] then Raise(IndexError) else Ok(Take(FirstOfEach(sorted), topN))
  }

  /** The score items list the cached ids in cache order, each once, with its score. */
  lemma ScoresOfCache(cache: Cache, e: Embedder, model: string, query: string)
    requires Valid(cache)
    ensures var s := Scores(cache, e.similarity, e.embed(model, query));
      Scored(s, Scoring(cache, e, model, query)) && Distinct(s) && FirstOfEach(s) == cache.keys
  {
    var s := Scores(cache, e.similarity, e.embed(model, query));
    forall i, j | 0 <= i < j < |s|
      ensures s[i] != s[j]
    {
      assert s[i].0 == cache.keys[i] && s[j].0 == cache.keys[j];
    }
  }

  /** The sorted score items are the cached ids with their scores, best first. */
  lemma SortedScores(cache: Cache, e: Embedder, model: string, query: string)
    requires Valid(cache)
    ensures var t := SortDesc(Scores(cache, e.similarity, e.embed(model, query)));
      && |t| == |cache.keys|
      && NonIncreasing(t)
      && Scored(t, Scoring(cache, e, model, query))
  {
    var s := Scores(cache, e.similarity, e.embed(model, query));
    ScoresOfCache(cache, e, model, query);
    SortDescItems(s, Scoring(cache, e, model, query));
    SortDescNonIncreasing(s);
  }

  /** The sorted score items list every cached id, and no other. */
  lemma SortedIds(cache: Cache, e: Embedder, model: string, query: string)
    requires Valid(cache)
    ensures var t := SortDesc(Scores(cache, e.similarity, e.embed(model, query)));
      forall x :: x in FirstOfEach(t) <==> x in cache.entries
  {
    var s := Scores(cache, e.similarity, e.embed(model, query));
    var t := SortDesc(s);
    ScoresOfCache(cache, e, model, query);
    SortDescItems(s, Scoring(cache, e, model, query));
    SortDescKeys(s);
    KeysMembership(cache);
    assert forall i :: 0 <= i < |t| ==> FirstOfEach(t)[i] in Scoring(cache, e, model, query);
  }

  /** ... each of them once. */
  lemma SortedIdsDistinct(cache: Cache, e: Embedder, model: string, query: string)
    requires Valid(cache)
    ensures Distinct(FirstOfEach(SortDesc(Scores(cache, e.similarity, e.embed(model, query)))))
  {
    var s := Scores(cache, e.similarity, e.embed(model, query));
    ScoresOfCache(cache, e, model, query);
    SortDescItems(s, Scoring(cache, e, model, query));
    SortDescDistinct(s);
    DistinctFirsts(SortDesc(s), Scoring(cache, e, model, query));
  }

  /** Ranking fails, with `IndexError`, exactly when the cache is empty. */
  lemma RankFailsOnEmptyCache(cache: Cache, e: Embedder, model: string, query: string, topN: int)
    requires Valid(cache)
    ensures Rank(cache, e, model, query, topN).Raise? <==> cache.entries == map[]
    ensures Rank(cache, e, model, query, topN).Raise? ==> Rank(cache, e, model, query, topN).exception == IndexError
  {
    SortedScores(cache, e, model, query);
    KeysMembership(cache);
    if cache.keys != [] {
      assert cache.keys[0] in cache.entries;
    }
  }

  /**
   * The ranked ids are distinct cache keys, `top_n` of them when there are that
   * many (fewer for a negative `top_n`, which drops ids from the end).
   */
  lemma RankedAreCached(cache: Cache, e: Embedder, model: string, query: string, topN: int)
    requires Valid(cache)
    requires Rank(cache, e, model, query, topN).Ok?
    ensures var ids := Rank(cache, e, model, query, topN).value;
      && Distinct(ids)
      && (forall x :: x in ids ==> x in cache.entries)
      && |ids| == SliceStop(|cache.keys|, topN)
  {
    SortedScores(cache, e, model, query);
    SortedIds(cache, e, model, query);
    SortedIdsDistinct(cache, e, model, query);
    TakeDistinct(FirstOfEach(SortDesc(Scores(cache, e.similarity, e.embed(model, query)))), topN);
  }

  /** The ranked ids come in order of non-increasing score. */
  lemma RankedInScoreOrder(cache: Cache, e: Embedder, model: string, query: string, topN: int)
    requires Valid(cache)
    requires Rank(cache, e, model, query, topN).Ok?
    ensures var ids := Rank(cache, e, model, query, topN).value;
      var score := Scoring(cache, e, model, query);
      forall i, j :: 0 <= i < j < |ids| ==> (ids[i] in score && ids[j] in score && score[ids[i]] >= score[ids[j]])
  {
    SortedScores(cache, e, model, query);
    TopInOrder(SortDesc(Scores(cache, e.similarity, e.embed(model, query))), topN, Scoring(cache, e, model, query));
  }

  /** No cached id left out of the ranking scores higher than one ranked. */
  lemma RankedAreBest(cache: Cache, e: Embedder, model: string, query: string, topN: int)
    requires Valid(cache)
    requires Rank(cache, e, model, query, topN).Ok?
    ensures var ids := Rank(cache, e, model, query, topN).value;
      var score := Scoring(cache, e, model, query);
      forall x, y :: x in ids && y in cache.entries && y !in ids ==> (x in score && y in score && score[x] >= score[y])
  {
    SortedScores(cache, e, model, query);
    SortedIds(cache, e, model, query);
    TopAreBest(SortDesc(Scores(cache, e.similarity, e.embed(model, query))), topN, Scoring(cache, e, model, query));
  }

  /**
   * Ties keep cache order: for every score, the ranked items with that score are
   * the first items with that score in cache order.
   */
  lemma RankedTiesKeepCacheOrder(cache: Cache, e: Embedder, model: string, query: string, topN: int, v: real)
    requires Valid(cache)
    ensures var s := Scores(cache, e.similarity, e.embed(model, query));
      WithScore(Take(SortDesc(s), topN), v) <= WithScore(s, v)
  {
    var s := Scores(cache, e.similarity, e.embed(model, query));
    SortDescStable(s, v);
    WithScorePrefix(Take(SortDesc(s), topN), SortDesc(s), v);
  }

  /** The ranked ids are the ids of the ranked items. */
  lemma RankedIdsOfItems(cache: Cache, e: Embedder, model: string, query: string, topN: int)
    requires Valid(cache)
    requires Rank(cache, e, model, query, topN).Ok?
    ensures var s := Scores(cache, e.similarity, e.embed(model, query));
      Rank(cache, e, model, query, topN).value == FirstOfEach(Take(SortDesc(s), topN))
  {
  }

  // The category filter of `retrieve_information`

  /**
   * `{id: data for id, data in nodes if data['type'] == NodeType[category.upper()]}`
   * over the nodes `ids`, in order. For each node in turn the `type` lookup
   * raises `KeyError` on a node that `add_edge` created, and then the
   * enumeration lookup raises `KeyError` on an unknown category. The source reads
   * `data['data'].node_type` at this point; `CategoryFilterAsWritten` models that.
   */
  function TypeFilter(nodes: Dict<NodeId, NodeAttrs>, ids: seq<NodeId>, category: string): Result<seq<NodeId>>
    requires forall i :: 0 <= i < |ids| ==> ids[i] in nodes.entries
    decreases |ids|
  {
    if ids == [] then Ok([])
    else
      match TypeOf(nodes.entries[ids[0]])
      case None => Raise(KeyError("type"))
      case Some(t) =>
        match NodeTypeNamed(Upper(category))
        case Raise(x) => Raise(x)
        case Ok(wanted) =>
          match TypeFilter(nodes, ids[1..], category)
          case Raise(x) => Raise(x)
          case Ok(rest) => Ok((if t == wanted then [ids[0]] else []) + rest)
  }

  /** The candidate nodes of `retrieve_information`: all nodes for the empty category, else those of its type. */
  function CategoryFilter(g: GraphState, category: string): Result<seq<NodeId>>
    requires Wellformed(g)
  {
    if category == "" then Ok(g.nodes.keys) else TypeFilter(g.nodes, g.nodes.keys, category)
  }

  /**
   * For a known category the filter keeps exactly the nodes of that type, in
   * node order, and fails with `KeyError('type')` exactly when some node has no
   * attributes.
   */
  lemma {:induction false} TypeFilterKnown(nodes: Dict<NodeId, NodeAttrs>, ids: seq<NodeId>, category: string, wanted: NodeType)
    requires forall i :: 0 <= i < |ids| ==> ids[i] in nodes.entries
    requires NodeTypeNamed(Upper(category)) == Ok(wanted)
    ensures var r := TypeFilter(nodes, ids, category);
      && (r.Ok? <==> forall i :: 0 <= i < |ids| ==> TypeOf(nodes.entries[ids[i]]).Some?)
      && (r.Raise? ==> r.exception == KeyError("type"))
      && (r.Ok? ==> forall x :: x in r.value <==> x in ids && TypeOf(nodes.entries[x]) == Some(wanted))
    decreases |ids|
  {
    if ids != [] {
      TypeFilterKnown(nodes, ids[1..], category, wanted);
      assert forall x :: x in ids <==> x == ids[0] || x in ids[1..];
      assert forall i :: 1 <= i < |ids| ==> ids[i] == ids[1..][i - 1];
    }
  }

  /** An unknown category fails on the first node: `KeyError('type')` if it has no attributes, else `KeyError(category.upper())`. */
  lemma TypeFilterUnknown(nodes: Dict<NodeId, NodeAttrs>, ids: seq<NodeId>, category: string)
    requires forall i :: 0 <= i < |ids| ==> ids[i] in nodes.entries
    requires Upper(category) != "PERSON" && Upper(category) != "EVENT" && ids != []
    ensures TypeFilter(nodes, ids, category)
         == Raise(if TypeOf(nodes.entries[ids[0]]).None? then KeyError("type") else KeyError(Upper(category)))
  {
  }

  /** With the empty category the candidates are all nodes, so there are none exactly when the graph is empty. */
  lemma CategoryFilterAll(g: GraphState)
    requires Wellformed(g)
    ensures CategoryFilter(g, "").Ok?
    ensures forall x :: x in CategoryFilter(g, "").value <==> x in g.nodes.entries
    ensures CategoryFilter(g, "").value == [] <==> g.nodes.entries == map[]
  {
    KeysMembership(g.nodes);
    EmptyIffNoKeys(g.nodes);
  }

  /** An empty graph gives no candidates whatever the category, even an unknown one. */
  lemma CategoryFilterEmptyGraph(g: GraphState, category: string)
    requires Wellformed(g) && g.nodes.entries == map[]
    ensures CategoryFilter(g, category) == Ok([])
  {
    EmptyIffNoKeys(g.nodes);
  }

  /**
   * The filter as retriever.py:119 writes it: `data['data'].node_type`. For the
   * first node, `data['data']` raises `KeyError` when the node has no
   * attributes, and is otherwise the payload dict `to_dict()` made, which has no
   * attribute `node_type`; so the comprehension fails on its first node.
   */
  function CategoryFilterAsWritten(g: GraphState, category: string): Result<seq<NodeId>>
    requires Wellformed(g)
  {
    if category == "" then Ok(g.nodes.keys)
    else if g.nodes.keys == [] then Ok([])
    else if DataOf(g.nodes.entries[g.nodes.keys[0]]).None? then Raise(KeyError("data"))
    else Raise(AttributeError("node_type"))
  }

  /** As written, every non-empty category fails on every non-empty graph. */
  lemma CategoryFilterAsWrittenFails(g: GraphState, category: string)
    requires Wellformed(g) && category != "" && g.nodes.entries != map[]
    ensures CategoryFilterAsWritten(g, category).Raise?
  {
    KeysMembership(g.nodes);
    var x :| x in g.nodes.entries;
    assert x in g.nodes.keys;
  }

  /** A graph of one PERSON node: as written, category "PERSON" raises; the intended filter returns that node. */
  lemma CategoryFilterDiscrepancy()
    ensures var g := AddNode(EmptyGraph(), User, PersonNode(PersonData("Ann", 81)));
      && Wellformed(g)
      && CategoryFilterAsWritten(g, "PERSON") == Raise(AttributeError("node_type"))
      && CategoryFilter(g, "PERSON") == Ok([User])
  {
    var g := AddNode(EmptyGraph(), User, PersonNode(PersonData("Ann", 81)));
    AddNodeShape(EmptyGraph(), User, PersonNode(PersonData("Ann", 81)));
    assert g.nodes.keys == [User];
    assert g.nodes.entries[User] == PersonNode(PersonData("Ann", 81));
    assert Upper("PERSON") == "PERSON";
    assert NodeTypeNamed(Upper("PERSON")) == Ok(PERSON);
    assert [User][1..] == [];
    assert TypeFilter(g.nodes, [User][1..], "PERSON") == Ok([]);
    assert [User] + [] == [User];
  }

  // The texts handed to the language model

  /** The answer of `retrieve_information` when there are no candidate nodes. */
  function NoInformation(query: string, category: string): string {
    "No information found for " + query + " in category " + category + "."
  }

  /** `f"Info on {m}:\n{nodes_to_text(get_neighbors(m, max_distance=1))}\n"` */
  function InfoBlock(kg: KnowledgeGraph, m: NodeId): string
    requires kg.Valid()
    reads kg
  {
    "Info on " + m + ":\n" + kg.NodesToText(kg.GetNeighbors(m, 1)) + "\n"
  }

  /** The blocks of the matches `ms`, in rank order. */
  function InfoText(kg: KnowledgeGraph, ms: seq<NodeId>): string
    requires kg.Valid()
    reads kg
    decreases |ms|
  {
    if ms == [] then "" else InfoText(kg, ms[..|ms| - 1]) + InfoBlock(kg, ms[|ms| - 1])
  }

  /** The information text of several matches is the texts of their parts, one after the other. */
  lemma {:induction false} InfoTextConcat(kg: KnowledgeGraph, a: seq<NodeId>, b: seq<NodeId>)
    requires kg.Valid()
    ensures InfoText(kg, a + b) == InfoText(kg, a) + InfoText(kg, b)
    decreases |b|
  {
    if b == [] {
      assert a + b == a;
    } else {
      var b' := b[..|b| - 1];
      assert (a + b)[..|a + b| - 1] == a + b';
      assert (a + b)[|a + b| - 1] == b[|b| - 1];
      InfoTextConcat(kg, a, b');
      ConcatAssoc(InfoText(kg, a), InfoText(kg, b'), InfoBlock(kg, b[|b| - 1]));
    }
  }

  /** The text of one match is its block; the block describes the match and its direct successors. */
  lemma InfoTextSingle(kg: KnowledgeGraph, m: NodeId)
    requires kg.Valid()
    ensures InfoText(kg, [m]) == "Info on " + m + ":\n" + kg.NodesToText(kg.GetNeighbors(m, 1)) + "\n"
    ensures forall x :: x in kg.GetNeighbors(m, 1) <==> x == m || HasEdge(kg.edges, m, x)
  {
    assert [m][..0] == [];
    forall x
      ensures x in kg.GetNeighbors(m, 1) <==> x == m || HasEdge(kg.edges, m, x)
    {
      DirectNeighbors(kg.State(), m, x);
    }
  }

  /** `f"Successfully added {event} to the knowledge graph"` */
  function SuccessMessage(event: NodeId): string {
    "Successfully added " + event + " to the knowledge graph"
  }

  /** `f"Failed to add event to knowledge graph. node_names must be one of {ids}"`, `listText` rendering the list. */
  function FailureMessage(listText: seq<NodeId> -> string, ids: seq<NodeId>): string {
    "Failed to add event to knowledge graph. node_names must be one of " + listText(ids)
  }

  // The graph update of `add_event`

  /** The keyword arguments retriever.py:153-159 passes to `EventData`. */
  function SourceKeywords(event: NodeId, description: string, time: string, day: string, location: string): seq<(string, string)> {
    [("title", event), ("description", description), ("time", time), ("day", day), ("location", location)]
  }

  /** The same call without the `description` keyword, which `EventData` does not declare. */
  function IntendedKeywords(event: NodeId, time: string, day: string, location: string): seq<(string, string)> {
    [("title", event), ("time", time), ("day", day), ("location", location)]
  }

  /** As written, constructing the event always raises `TypeError` for `description`. */
  lemma SourceEventCallRejected(event: NodeId, description: string, time: string, day: string, location: string)
    ensures MakeEvent(SourceKeywords(event, description, time, day, location)) == Raise(TypeError("description"))
  {
    var kw := SourceKeywords(event, description, time, day, location);
    assert kw[0].0 == "title" && IsEventField(kw[0].0);
    assert kw[1..][0].0 == "description" && !IsEventField("description");
  }

  /** Without it, the event is the one described by the arguments, titled with the event id. */
  lemma IntendedEventCallAccepted(event: NodeId, time: string, day: string, location: string)
    ensures MakeEvent(IntendedKeywords(event, time, day, location)) == Ok(EventData(time, day, event, location))
  {
    IntendedKeywordsFound(event, time, day, location);
  }

  /** Each field is passed once in the corrected call, and no other keyword is. */
  lemma IntendedKeywordsFound(event: NodeId, time: string, day: string, location: string)
    ensures var kw := IntendedKeywords(event, time, day, location);
      && Unexpected(kw).None?
      && Keyword(kw, "time") == Some(time) && Keyword(kw, "day") == Some(day)
      && Keyword(kw, "title") == Some(event) && Keyword(kw, "location") == Some(location)
  {
    var kw := IntendedKeywords(event, time, day, location);
    assert kw[1..] == [("time", time), ("day", day), ("location", location)];
    assert kw[1..][1..] == [("day", day), ("location", location)];
    assert kw[1..][1..][1..] == [("location", location)];
    assert Keyword(kw[1..][1..], "day") == Some(day);
    assert Keyword(kw[1..][1..][1..], "location") == Some(location);
    assert Keyword(kw[1..][1..], "location") == Some(location);
  }

  /** The graph after the loop of `add_event`: `connect(name, relation, event)` for each name that is a node at that point. */
  function Participated(g: GraphState, names: seq<NodeId>, relation: string, event: NodeId): GraphState
    decreases |names|
  {
    if names == [] then g
    else Participated(Participate(g, names[0], relation, event), names[1..], relation, event)
  }

  /** One turn of that loop. */
  function Participate(g: GraphState, name: NodeId, relation: string, event: NodeId): GraphState {
    if name in g.nodes.entries then WithConnection(g, Connection(name, relation, event, false)) else g
  }

  /** The edges `name -> event` for the names of `names` that are nodes, one per occurrence, in order. */
  function Attendances(nodes: Dict<NodeId, NodeAttrs>, names: seq<NodeId>, relation: string, event: NodeId): seq<Edge>
    decreases |names|
  {
    if names == [] then []
    else (if names[0] in nodes.entries then [Edge(names[0], event, relation)] else []) + Attendances(nodes, names[1..], relation, event)
  }

  lemma ParticipatedStep(g: GraphState, names: seq<NodeId>, relation: string, event: NodeId, i: nat)
    requires i < |names|
    ensures Participated(g, names[i..], relation, event)
         == Participated(Participate(g, names[i], relation, event), names[i + 1..], relation, event)
  {
    assert names[i..][1..] == names[i + 1..];
  }

  /**
   * When the event is a node, the loop of `add_event` changes no node and only
   * appends one edge `name -> event` labelled `relation` for each occurrence of
   * a known name; unknown names are skipped.
   */
  lemma {:induction false} ParticipatedShape(g: GraphState, names: seq<NodeId>, relation: string, event: NodeId)
    requires Wellformed(g) && event in g.nodes.entries
    ensures Participated(g, names, relation, event) == GraphState(g.nodes, g.edges + Attendances(g.nodes, names, relation, event))
    decreases |names|
  {
    if names != [] {
      var h := Participate(g, names[0], relation, event);
      var added := if names[0] in g.nodes.entries then [Edge(names[0], event, relation)] else [];
      assert h == GraphState(g.nodes, g.edges + added);
      assert Wellformed(h);
      ParticipatedShape(h, names[1..], relation, event);
      ConcatAssoc(g.edges, added, Attendances(g.nodes, names[1..], relation, event));
    }
  }

  /** `Retriever`: the knowledge graph it reads and updates, and the embedding cache it fills lazily. */
  class Retriever {
    const graph: KnowledgeGraph
    const embeddingModel: string
    /** `retrieval_distance`: stored, and read by no method; matches are always widened by one hop. */
    const retrievalDistance: int
    const embedder: Embedder
    /** How an f-string renders a list of node ids (`str` of a `list[str]`). */
    const listText: seq<NodeId> -> string
    var embeds: Cache

    /** The cache is a well-formed dict and never holds the elder's own node. */
    predicate Valid()
      reads this, graph
    {
      graph.Valid() && Dicts.Valid(embeds) && User !in embeds.entries
    }

    /** `Retriever(knowledge_graph, embedding_model, retrieval_distance)`: the cache starts empty. */
    constructor (graph: KnowledgeGraph, embeddingModel: string, retrievalDistance: int, embedder: Embedder,
                 listText: seq<NodeId> -> string)
      requires graph.Valid()
      ensures Valid() && embeds == Empty()
      ensures this.graph == graph && this.embeddingModel == embeddingModel && this.retrievalDistance == retrievalDistance
      ensures this.embedder == embedder && this.listText == listText
    {
      this.graph := graph;
      this.embeddingModel := embeddingModel;
      this.retrievalDistance := retrievalDistance;
      this.embedder := embedder;
      this.listText := listText;
      embeds := Empty();
    }

    /** `compute_node_embeddings()`: embeds the text of every node but `user`, in node order. */
    method ComputeNodeEmbeddings()
      requires Valid()
      modifies this
      ensures Valid()
      ensures embeds == Refreshed(old(embeds), embedder, embeddingModel, graph.renderer, graph.State())
    {
      RefreshedShape(embeds, embedder, embeddingModel, graph.renderer, graph.State());
      ghost var f := NodeEmbedding(embedder, embeddingModel, graph.renderer, graph.State());
      var ids := Candidates(graph.GetNodes());
      ghost var target := PutAll(embeds, Pairs(ids, f));
      for i := 0 to |ids|
        invariant PutAll(embeds, Pairs(ids[i..], f)) == target
      {
        PutAllPairsStep(embeds, ids, f, i);
        var text := graph.NodeToText(ids[i]);
        embeds := Put(embeds, ids[i], embedder.embed(embeddingModel, text));
      }
      assert Pairs(ids[|ids|..], f) == [];
    }

    /**
     * `get_matching_node(query, top_n)`: fills the cache if, and only if, it is
     * empty, then ranks the cached nodes against the query.
     */
    method GetMatchingNode(query: string, topN: int) returns (r: Result<seq<NodeId>>)
      requires Valid()
      modifies this
      ensures Valid()
      ensures old(embeds.entries) == map[] ==>
        embeds == Refreshed(old(embeds), embedder, embeddingModel, graph.renderer, graph.State())
      ensures old(embeds.entries) != map[] ==> embeds == old(embeds)
      ensures r == Rank(embeds, embedder, embeddingModel, query, topN)
    {
      if embeds.entries == map[] {
        ComputeNodeEmbeddings();
      }
      var q := embedder.embed(embeddingModel, query);
      var sorted := SortDesc(Scores(embeds, embedder.similarity, q));
      if sorted == [] {
        r := Raise(IndexError);
      } else {
        r := Ok(Take(FirstOfEach(sorted), topN));
      }
    }

    /**
     * `get_initial_context(time_str, day_str, location_str)`: checks the time
     * first, then the day, and describes the elder's own node.
     */
    function GetInitialContext(time: string, day: string, location: string): (r: Result<string>)
      requires Valid()
      reads this, graph
      ensures r.Raise? <==> !IsHourMinute(time) || !IsWeekdayName(day)
      ensures !IsHourMinute(time) ==> r == Raise(TimeFormatError(time))
      ensures IsHourMinute(time) && !IsWeekdayName(day) ==> r == Raise(DayFormatError(day))
      ensures r.Ok? ==> r.value == time + "\n" + location + "\nUser information:\n" + graph.NodesToText({User})
    {
      if !IsHourMinute(time) then Raise(TimeFormatError(time))
      else if !IsWeekdayName(day) then Raise(DayFormatError(day))
      else
        var info := graph.NodesToText(graph.GetNeighbors(User, 0));
        Ok(time + "\n" + location + "\nUser information:\n" + info)
    }

    /**
     * `retrieve_information(query, category)`: fails as the category filter
     * fails; answers that nothing was found when the filter keeps no node;
     * otherwise describes the two best matches over the whole cache, whatever
     * the category.
     */
    method RetrieveInformation(query: string, category: string) returns (r: Result<string>)
      requires Valid()
      modifies this
      ensures Valid()
      ensures CategoryFilter(graph.State(), category).Raise? ==>
        r == Raise(CategoryFilter(graph.State(), category).exception) && embeds == old(embeds)
      ensures CategoryFilter(graph.State(), category) == Ok([]) ==>
        r == Ok(NoInformation(query, category)) && embeds == old(embeds)
      ensures CategoryFilter(graph.State(), category).Ok? && CategoryFilter(graph.State(), category).value != [] ==>
        && embeds == (if old(embeds.entries) == map[]
                      then Refreshed(old(embeds), embedder, embeddingModel, graph.renderer, graph.State())
                      else old(embeds))
        && r == match Rank(embeds, embedder, embeddingModel, query, 2)
                case Raise(x) => Raise(x)
                case Ok(ms) => Ok(InfoText(graph, ms))
    {
      var candidates := CategoryFilter(graph.State(), category);
      if candidates.Raise? {
        return Raise(candidates.exception);
      }
      if candidates.value == [] {
        return Ok(NoInformation(query, category));
      }
      var matching := GetMatchingNode(query, 2);
      if matching.Raise? {
        return Raise(matching.exception);
      }
      var info := DescribeMatches(matching.value);
      r := Ok(info);
    }

    /** The loop of `retrieve_information`: `info += f"Info on {m}:\n{...}\n"` for each match in rank order. */
    method DescribeMatches(ms: seq<NodeId>) returns (info: string)
      requires Valid()
      ensures info == InfoText(graph, ms)
    {
      info := "";
      for i := 0 to |ms|
        invariant info == InfoText(graph, ms[..i])
      {
        assert ms[..i + 1][..i] == ms[..i];
        info := info + InfoBlock(graph, ms[i]);
      }
      assert ms[..|ms|] == ms;
    }

    /**
     * The body of `add_event` for the keyword arguments it passes to
     * `EventData`: creates the event unless it is already a node, then connects
     * each known participant to it. Nothing escapes: a failed construction
     * leaves the graph as it was and answers with the failure message.
     */
    method AddEventWith(nodeNames: seq<NodeId>, relation: string, event: NodeId, kwargs: seq<(string, string)>)
      returns (msg: string)
      requires Valid()
      modifies graph
      ensures Valid()
      ensures event !in old(graph.nodes.entries) && MakeEvent(kwargs).Raise? ==>
        msg == FailureMessage(listText, graph.GetNodes()) && graph.State() == old(graph.State())
      ensures event in old(graph.nodes.entries) ==>
        msg == SuccessMessage(event) && graph.State() == Participated(old(graph.State()), nodeNames, relation, event)
      ensures event !in old(graph.nodes.entries) && MakeEvent(kwargs).Ok? ==>
        && msg == SuccessMessage(event)
        && graph.State() == Participated(AddNode(old(graph.State()), event, EventNode(MakeEvent(kwargs).value)),
                                         nodeNames, relation, event)
    {
      if event !in graph.nodes.entries {
        var made := MakeEvent(kwargs);
        if made.Raise? {
          msg := FailureMessage(listText, RetrieveNodes());
          return;
        }
        var _ := graph.AddEvent(event, made.value);
      }
      ConnectParticipants(nodeNames, relation, event);
      msg := SuccessMessage(event);
    }

    /** The loop of `add_event`: `connect(name, predicate, event)` for each name that is a node. */
    method ConnectParticipants(nodeNames: seq<NodeId>, relation: string, event: NodeId)
      requires Valid()
      modifies graph
      ensures Valid()
      ensures graph.State() == Participated(old(graph.State()), nodeNames, relation, event)
    {
      ghost var target := Participated(graph.State(), nodeNames, relation, event);
      for i := 0 to |nodeNames|
        invariant graph.Valid()
        invariant Participated(graph.State(), nodeNames[i..], relation, event) == target
      {
        ParticipatedStep(graph.State(), nodeNames, relation, event, i);
        if nodeNames[i] in graph.GetNodes() {
          graph.Connect(nodeNames[i], relation, event, false);
        }
      }
      assert nodeNames[|nodeNames|..] == [];
    }

    /**
     * `add_event(node_names, predicate, event, description, time, day, location)`
     * as written: a new event always fails to be constructed, so the graph is
     * only ever changed for an event id that is already a node.
     */
    method AddEvent(nodeNames: seq<NodeId>, relation: string, event: NodeId, description: string, time: string,
                    day: string, location: string) returns (msg: string)
      requires Valid()
      modifies graph
      ensures Valid()
      ensures event !in old(graph.nodes.entries) ==>
        msg == FailureMessage(listText, graph.GetNodes()) && graph.State() == old(graph.State())
      ensures event in old(graph.nodes.entries) ==>
        && msg == SuccessMessage(event)
        && graph.nodes == old(graph.nodes)
        && graph.edges == old(graph.edges) + Attendances(old(graph.nodes), nodeNames, relation, event)
    {
      SourceEventCallRejected(event, description, time, day, location);
      if event in graph.nodes.entries {
        ParticipatedShape(graph.State(), nodeNames, relation, event);
      }
      msg := AddEventWith(nodeNames, relation, event, SourceKeywords(event, description, time, day, location));
    }

    /**
     * `add_event` as intended, without the `description` keyword: it always
     * succeeds; an existing event id keeps its node, a new one becomes an EVENT
     * node titled with its id, and each occurrence of a known name adds one edge
     * `name -> event`.
     */
    method AddEventIntended(nodeNames: seq<NodeId>, relation: string, event: NodeId, time: string, day: string,
                            location: string) returns (msg: string)
      requires Valid()
      modifies graph
      ensures Valid() && msg == SuccessMessage(event)
      ensures event in old(graph.nodes.entries) ==>
        && graph.nodes == old(graph.nodes)
        && graph.edges == old(graph.edges) + Attendances(old(graph.nodes), nodeNames, relation, event)
      ensures event !in old(graph.nodes.entries) ==>
        && graph.nodes == Put(old(graph.nodes), event, EventNode(EventData(time, day, event, location)))
        && graph.edges == old(graph.edges) + Attendances(graph.nodes, nodeNames, relation, event)
    {
      IntendedEventCallAccepted(event, time, day, location);
      var attrs := EventNode(EventData(time, day, event, location));
      if event in graph.nodes.entries {
        ParticipatedShape(graph.State(), nodeNames, relation, event);
      } else {
        AddNodeShape(graph.State(), event, attrs);
        ParticipatedShape(AddNode(graph.State(), event, attrs), nodeNames, relation, event);
      }
      msg := AddEventWith(nodeNames, relation, event, IntendedKeywords(event, time, day, location));
    }

    /** `retrieve_nodes()`: the node ids in insertion order, each once. */
    function RetrieveNodes(): (ids: seq<NodeId>)
      requires Valid()
      reads this, graph
      ensures ids == graph.nodes.keys
      ensures Distinct(ids) && forall k :: k in ids <==> k in graph.nodes.entries
    {
      graph.GetNodes()
    }
  }
}
