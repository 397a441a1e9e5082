/**
 * dementia_agent/knowledge_graph/graph.py: a knowledge graph over a networkx
 * `MultiDiGraph`. Its state is the node table, an insertion-ordered dict from
 * node id to attributes, and the sequence of labelled directed edges in the
 * order they were added; parallel edges are kept.
 *
 * The pure functions below give the effect of each graph operation on a
 * `GraphState`; the class `KnowledgeGraph` performs those operations in place.
 * The text renderers the retriever calls (`node_to_text`, `nodes_to_text`) are
 * not defined in graph.py; they are supplied to the constructor as functions of
 * the graph state and are otherwise uninterpreted.
 */
module Graph {
  import opened Wrappers
  import opened Dicts

  type NodeId = string

  /** `NodeType`: the tag kept under a node's `type` attribute. */
  datatype NodeType = PERSON | EVENT

  /** The member name of a node type. */
  function NameOf(t: NodeType): string {
    match t
    case PERSON => "PERSON"
    case EVENT => "EVENT"
  }

  /** `NodeType[name]`: the member with that name, or a `KeyError`. */
  function NodeTypeNamed(name: string): (r: Result<NodeType>)
    ensures r.Ok? <==> name == "PERSON" || name == "EVENT"
    ensures r.Ok? ==> NameOf(r.value) == name
    ensures r.Raise? ==> r.exception == KeyError(name)
  {
    if name == "PERSON" then Ok(PERSON)
    else if name == "EVENT" then Ok(EVENT)
    else Raise(KeyError(name))
  }

  lemma NodeTypeNamedInverse(t: NodeType)
    ensures NodeTypeNamed(NameOf(t)) == Ok(t)
  {
  }

  /** A value of a `to_dict` payload: the dataclass fields are `str` or `int`. */
  datatype Value = Text(text: string) | Number(number: int)

  type Payload = Dict<string, Value>

  datatype PersonData = PersonData(name: string, age: int)

  datatype EventData = EventData(time: string, day: string, title: string, location: string)

  /** `asdict(person)`: one entry per field, in declaration order. */
  function PersonToDict(p: PersonData): Payload {
    Dict(["name", "age"], map["name" := Text(p.name), "age" := Number(p.age)])
  }

  /** The person a payload describes, when it has exactly the shape `asdict` gives. */
  function PersonFromDict(d: Payload): Option<PersonData> {
    if && d.keys == ["name", "age"] && d.entries.Keys == {"name", "age"}
       && d.entries["name"].Text? && d.entries["age"].Number?
    then Some(PersonData(d.entries["name"].text, d.entries["age"].number))
    else None
  }

  /** A person's payload is a dict with the keys `name` and `age`, and it determines the person. */
  lemma PersonRoundTrip(p: PersonData)
    ensures Valid(PersonToDict(p)) && PersonToDict(p).keys == ["name", "age"]
    ensures PersonFromDict(PersonToDict(p)) == Some(p)
  {
    assert PersonToDict(p).entries.Keys == {"name", "age"};
  }

  /** The only payloads read back as a person are the payloads of persons. */
  lemma PersonFromDictInverse(d: Payload)
    requires PersonFromDict(d).Some?
    ensures PersonToDict(PersonFromDict(d).value) == d
  {
    var p := PersonFromDict(d).value;
    assert PersonToDict(p).entries == d.entries;
  }

  /** `asdict(event)`: one entry per field, in declaration order. */
  function EventToDict(e: EventData): Payload {
    Dict(["time", "day", "title", "location"],
         map["time" := Text(e.time), "day" := Text(e.day), "title" := Text(e.title), "location" := Text(e.location)])
  }

  /** The event a payload describes, when it has exactly the shape `asdict` gives. */
  function EventFromDict(d: Payload): Option<EventData> {
    if && d.keys == ["time", "day", "title", "location"]
       && d.entries.Keys == {"time", "day", "title", "location"}
       && d.entries["time"].Text? && d.entries["day"].Text?
       && d.entries["title"].Text? && d.entries["location"].Text?
    then Some(EventData(d.entries["time"].text, d.entries["day"].text, d.entries["title"].text, d.entries["location"].text))
    else None
  }

  /** An event's payload is a dict with the four field names as keys, and it determines the event. */
  lemma EventRoundTrip(e: EventData)
    ensures Valid(EventToDict(e)) && EventToDict(e).keys == ["time", "day", "title", "location"]
    ensures EventFromDict(EventToDict(e)) == Some(e)
  {
    assert EventToDict(e).entries.Keys == {"time", "day", "title", "location"};
  }

  /** The only payloads read back as an event are the payloads of events. */
  lemma EventFromDictInverse(d: Payload)
    requires EventFromDict(d).Some?
    ensures EventToDict(EventFromDict(d).value) == d
  {
    var e := EventFromDict(d).value;
    assert EventToDict(e).entries == d.entries;
  }

  /** The keyword parameters of the generated `EventData.__init__`. */
  predicate IsEventField(k: string) {
    k == "time" || k == "day" || k == "title" || k == "location"
  }

  /** The value passed for keyword `k`, if any. */
  function Keyword(kwargs: seq<(string, string)>, k: string): (r: Option<string>)
    ensures r.Some? <==> exists i :: 0 <= i < |kwargs| && kwargs[i].0 == k
    ensures r.Some? ==> exists i :: 0 <= i < |kwargs| && kwargs[i] == (k, r.value) && forall j :: 0 <= j < i ==> kwargs[j].0 != k
    decreases |kwargs|
  {
    if kwargs == [] then None
    else if kwargs[0].0 == k then Some(kwargs[0].1)
    else Keyword(kwargs[1..], k)
  }

  /** The first keyword that is not a parameter, if any. */
  function Unexpected(kwargs: seq<(string, string)>): (r: Option<string>)
    ensures r.None? <==> forall i :: 0 <= i < |kwargs| ==> IsEventField(kwargs[i].0)
    ensures r.Some? ==> !IsEventField(r.value) && exists i :: 0 <= i < |kwargs| && kwargs[i].0 == r.value
    decreases |kwargs|
  {
    if kwargs == [] then None
    else if !IsEventField(kwargs[0].0) then Some(kwargs[0].0)
    else Unexpected(kwargs[1..])
  }

  /**
   * `EventData(**kwargs)`: the dataclass constructor called with keyword
   * arguments only. A keyword that names no field raises `TypeError` before any
   * other check; then a missing field raises `TypeError`, the first one in
   * declaration order.
   */
  function MakeEvent(kwargs: seq<(string, string)>): (r: Result<EventData>)
    ensures r.Ok? <==> && Unexpected(kwargs).None?
                       && Keyword(kwargs, "time").Some? && Keyword(kwargs, "day").Some?
                       && Keyword(kwargs, "title").Some? && Keyword(kwargs, "location").Some?
    ensures r.Ok? ==> && Keyword(kwargs, "time") == Some(r.value.time)
                      && Keyword(kwargs, "day") == Some(r.value.day)
                      && Keyword(kwargs, "title") == Some(r.value.title)
                      && Keyword(kwargs, "location") == Some(r.value.location)
    ensures r.Raise? ==> r.exception.TypeError?
    ensures r.Raise? ==> var a := r.exception.argument;
      || (!IsEventField(a) && Unexpected(kwargs) == Some(a))
      || (IsEventField(a) && Unexpected(kwargs).None? && Keyword(kwargs, a).None?)
  {
    match Unexpected(kwargs)
    case Some(k) => Raise(TypeError(k))
    case None =>
      match (Keyword(kwargs, "time"), Keyword(kwargs, "day"), Keyword(kwargs, "title"), Keyword(kwargs, "location"))
      case (Some(time), Some(day), Some(title), Some(location)) => Ok(EventData(time, day, title, location))
      case (None, _, _, _) => Raise(TypeError("time"))
      case (_, None, _, _) => Raise(TypeError("day"))
      case (_, _, None, _) => Raise(TypeError("title"))
      case (_, _, _, None) => Raise(TypeError("location"))
  }

  /**
   * The attribute dict networkx keeps for a node. A node that `add_edge` created
   * has none; `add_person` and `add_event` set `type` and `data`, and since
   * `add_node` on an existing node updates its attribute dict and always sets
   * both keys, a node's attributes are those of the last `add_person` or
   * `add_event` for its id. The record kept here stands for the `type` and
   * `data` attributes it determines (see `TypeOf` and `DataOf`).
   */
  datatype NodeAttrs = Bare | PersonNode(person: PersonData) | EventNode(event: EventData)

  /** `attrs['type']`, or `None` where that lookup raises `KeyError`. */
  function TypeOf(a: NodeAttrs): Option<NodeType> {
    match a
    case Bare => None
    case PersonNode(_) => Some(PERSON)
    case EventNode(_) => Some(EVENT)
  }

  /** `attrs['data']`, or `None` where that lookup raises `KeyError`. */
  function DataOf(a: NodeAttrs): Option<Payload> {
    match a
    case Bare => None
    case PersonNode(p) => Some(PersonToDict(p))
    case EventNode(e) => Some(EventToDict(e))
  }

  /** The `type` and `data` attributes determine the record a node holds. */
  lemma AttributesDetermineNode(a: NodeAttrs, b: NodeAttrs)
    requires TypeOf(a) == TypeOf(b) && DataOf(a) == DataOf(b)
    ensures a == b
  {
    match a
    case Bare =>
    case PersonNode(p) =>
      PersonRoundTrip(p);
      PersonRoundTrip(b.person);
    case EventNode(e) =>
      EventRoundTrip(e);
      EventRoundTrip(b.event);
  }

  datatype Edge = Edge(src: NodeId, dst: NodeId, relation: string)

  /** An entry of the `connections` list given to `from_config`: the arguments of one `connect` call. */
  datatype Connection = Connection(src: NodeId, relation: string, dst: NodeId, bidirectional: bool)

  datatype GraphState = GraphState(nodes: Dict<NodeId, NodeAttrs>, edges: seq<Edge>)

  /** Both endpoints of every edge are nodes. */
  predicate Wellformed(g: GraphState) {
    && Valid(g.nodes)
    && forall i :: 0 <= i < |g.edges| ==> g.edges[i].src in g.nodes.entries && g.edges[i].dst in g.nodes.entries
  }

  function EmptyGraph(): (g: GraphState)
    ensures Wellformed(g) && g.nodes.keys == [] && g.edges == []
  {
    GraphState(Empty(), [])
  }

  /** `add_node(id, type=..., data=...)` with the attributes `attrs` stands for. */
  function AddNode(g: GraphState, id: NodeId, attrs: NodeAttrs): GraphState {
    GraphState(Put(g.nodes, id, attrs), g.edges)
  }

  /** The node table after `add_edge` has made sure `id` is a node. */
  function EnsureNode(nodes: Dict<NodeId, NodeAttrs>, id: NodeId): Dict<NodeId, NodeAttrs> {
    if id in nodes.entries then nodes else Put(nodes, id, Bare)
  }

  /** `add_edge(u, v, relation=relation)`: creates `u`, then `v`, when missing, and adds a parallel edge. */
  function AddEdge(g: GraphState, u: NodeId, v: NodeId, relation: string): GraphState {
    GraphState(EnsureNode(EnsureNode(g.nodes, u), v), g.edges + [Edge(u, v, relation)])
  }

  /** `connect(src, relation, dst, bidirectional)` */
  function WithConnection(g: GraphState, c: Connection): GraphState {
    var h := AddEdge(g, c.src, c.dst, c.relation);
    if c.bidirectional then AddEdge(h, c.dst, c.src, c.relation) else h
  }

  /** The edges one `connect` call adds, in order. */
  function EdgesOf(c: Connection): seq<Edge> {
    [Edge(c.src, c.dst, c.relation)] + if c.bidirectional then [Edge(c.dst, c.src, c.relation)] else []
  }

  /**
   * `add_node` on a new id appends it; on an existing id it replaces the type and
   * payload in place, keeping the position in node order and every edge.
   */
  lemma AddNodeShape(g: GraphState, id: NodeId, attrs: NodeAttrs)
    requires Wellformed(g)
    ensures var h := AddNode(g, id, attrs);
      && Wellformed(h)
      && h.edges == g.edges
      && h.nodes.keys == (if id in g.nodes.entries then g.nodes.keys else g.nodes.keys + [id])
      && (forall k :: k in h.nodes.entries <==> k in g.nodes.entries || k == id)
      && h.nodes.entries[id] == attrs
      && forall k :: k in g.nodes.entries && k != id ==> h.nodes.entries[k] == g.nodes.entries[k]
  {
  }

  lemma EnsureNodeShape(nodes: Dict<NodeId, NodeAttrs>, id: NodeId)
    requires Valid(nodes)
    ensures var r := EnsureNode(nodes, id);
      && Valid(r)
      && r.keys == AppendNew(nodes.keys, [id])
      && (forall k :: k in r.entries <==> k in nodes.entries || k == id)
      && (forall k :: k in nodes.entries ==> r.entries[k] == nodes.entries[k])
      && (id !in nodes.entries ==> r.entries[id] == Bare)
  {
    assert [id][1..] == [];
  }

  lemma EnsureEndpointsOrder(nodes: Dict<NodeId, NodeAttrs>, u: NodeId, v: NodeId)
    requires Valid(nodes)
    ensures var r := EnsureNode(EnsureNode(nodes, u), v);
      Valid(r) && r.keys == AppendNew(nodes.keys, [u, v])
  {
    EnsureNodeShape(nodes, u);
    EnsureNodeShape(EnsureNode(nodes, u), v);
    assert [u, v][1..] == [v];
  }

  lemma EnsureEndpointsShape(nodes: Dict<NodeId, NodeAttrs>, u: NodeId, v: NodeId)
    requires Valid(nodes)
    ensures var r := EnsureNode(EnsureNode(nodes, u), v);
      && Valid(r)
      && r.keys == AppendNew(nodes.keys, [u, v])
      && (forall k :: k in r.entries <==> k in nodes.entries || k == u || k == v)
      && (forall k :: k in nodes.entries ==> r.entries[k] == nodes.entries[k])
      && (forall k :: k in r.entries && k !in nodes.entries ==> r.entries[k] == Bare)
  {
    EnsureEndpointsOrder(nodes, u, v);
    EnsureNodeShape(nodes, u);
    EnsureNodeShape(EnsureNode(nodes, u), v);
  }

  /**
   * `add_edge(u, v)` appends exactly the edge `u -> v`; no attributes of an
   * existing node change, and missing endpoints become nodes without attributes,
   * `u` before `v`.
   */
  lemma AddEdgeShape(g: GraphState, u: NodeId, v: NodeId, relation: string)
    requires Wellformed(g)
    ensures var h := AddEdge(g, u, v, relation);
      && Wellformed(h)
      && h.edges == g.edges + [Edge(u, v, relation)]
      && h.nodes.keys == AppendNew(g.nodes.keys, [u, v])
      && (forall k :: k in h.nodes.entries <==> k in g.nodes.entries || k == u || k == v)
      && (forall k :: k in g.nodes.entries ==> h.nodes.entries[k] == g.nodes.entries[k])
      && (forall k :: k in h.nodes.entries && k !in g.nodes.entries ==> h.nodes.entries[k] == Bare)
  {
    EnsureEndpointsShape(g.nodes, u, v);
    var h := AddEdge(g, u, v, relation);
    assert forall i :: 0 <= i < |g.edges| ==> h.edges[i] == g.edges[i];
  }

  /**
   * `connect` appends exactly the edge `src -> dst`, then `dst -> src` when it is
   * bidirectional; no edge is removed, no attributes of an existing node change,
   * and missing endpoints become nodes without attributes, `src` before `dst`.
   */
  lemma ConnectShape(g: GraphState, c: Connection)
    requires Wellformed(g)
    ensures var h := WithConnection(g, c);
      && Wellformed(h)
      && h.edges == g.edges + EdgesOf(c)
      && h.nodes.keys == AppendNew(g.nodes.keys, [c.src, c.dst])
      && (forall k :: k in h.nodes.entries <==> k in g.nodes.entries || k == c.src || k == c.dst)
      && (forall k :: k in g.nodes.entries ==> h.nodes.entries[k] == g.nodes.entries[k])
      && (forall k :: k in h.nodes.entries && k !in g.nodes.entries ==> h.nodes.entries[k] == Bare)
  {
    var h := AddEdge(g, c.src, c.dst, c.relation);
    AddEdgeShape(g, c.src, c.dst, c.relation);
    if c.bidirectional {
      AddEdgeShape(h, c.dst, c.src, c.relation);
      AppendNewAbsorbs(h.nodes.keys, [c.dst, c.src]);
      ConcatAssoc(g.edges, [Edge(c.src, c.dst, c.relation)], [Edge(c.dst, c.src, c.relation)]);
    }
  }

  /** `add_node` for each id of `ids` in turn, with the attributes `attrs[id]`. */
  function AddAll(g: GraphState, attrs: map<NodeId, NodeAttrs>, ids: seq<NodeId>): GraphState
    requires forall i :: 0 <= i < |ids| ==> ids[i] in attrs
    decreases |ids|
  {
    if ids == [] then g else AddAll(AddNode(g, ids[0], attrs[ids[0]]), attrs, ids[1..])
  }

  lemma {:induction false} AddAllShape(g: GraphState, attrs: map<NodeId, NodeAttrs>, ids: seq<NodeId>)
    requires Wellformed(g)
    requires forall i :: 0 <= i < |ids| ==> ids[i] in attrs
    ensures var h := AddAll(g, attrs, ids);
      && Wellformed(h)
      && h.edges == g.edges
      && h.nodes.keys == AppendNew(g.nodes.keys, ids)
      && (forall k :: k in h.nodes.entries <==> k in g.nodes.entries || k in ids)
      && (forall k :: k in ids ==> h.nodes.entries[k] == attrs[k])
      && (forall k :: k in g.nodes.entries && k !in ids ==> h.nodes.entries[k] == g.nodes.entries[k])
    decreases |ids|
  {
    if ids != [] {
      var next := AddNode(g, ids[0], attrs[ids[0]]);
      AddNodeShape(g, ids[0], attrs[ids[0]]);
      AddAllShape(next, attrs, ids[1..]);
      assert forall k :: k in ids <==> k == ids[0] || k in ids[1..];
    }
  }

  /** One step of `AddAll` from position `i` of `ids`. */
  lemma AddAllStep(g: GraphState, attrs: map<NodeId, NodeAttrs>, ids: seq<NodeId>, i: nat)
    requires i < |ids| && forall j :: 0 <= j < |ids| ==> ids[j] in attrs
    ensures AddAll(g, attrs, ids[i..]) == AddAll(AddNode(g, ids[i], attrs[ids[i]]), attrs, ids[i + 1..])
  {
    assert ids[i..][1..] == ids[i + 1..];
  }

  /** The attributes `add_person` gives each person of `from_config`. */
  function PersonAttrs(people: map<NodeId, PersonData>): map<NodeId, NodeAttrs> {
    map k | k in people :: PersonNode(people[k])
  }

  /** Every person of the dict has its attributes, so `AddAll` over its keys is defined. */
  lemma PersonAttrsCover(people: Dict<NodeId, PersonData>)
    requires Valid(people)
    ensures forall i :: 0 <= i < |people.keys| ==> people.keys[i] in PersonAttrs(people.entries)
  {
  }

  /** The step of the people loop at position `i`: `add_person` of the `i`-th person. */
  lemma AddPeopleStep(g: GraphState, people: Dict<NodeId, PersonData>, i: nat)
    requires Valid(people) && i < |people.keys|
    ensures && (forall j :: 0 <= j < |people.keys| ==> people.keys[j] in PersonAttrs(people.entries))
            && people.keys[i] in people.entries
            && AddAll(g, PersonAttrs(people.entries), people.keys[i..])
               == AddAll(AddNode(g, people.keys[i], PersonNode(people.entries[people.keys[i]])),
                         PersonAttrs(people.entries), people.keys[i + 1..])
  {
    AddAllStep(g, PersonAttrs(people.entries), people.keys, i);
  }

  /** Every event of the dict has its attributes, so `AddAll` over its keys is defined. */
  lemma EventAttrsCover(events: Dict<NodeId, EventData>)
    requires Valid(events)
    ensures forall i :: 0 <= i < |events.keys| ==> events.keys[i] in EventAttrs(events.entries)
  {
  }

  /** The step of the events loop at position `i`: `add_event` of the `i`-th event. */
  lemma AddEventsStep(g: GraphState, events: Dict<NodeId, EventData>, i: nat)
    requires Valid(events) && i < |events.keys|
    ensures && (forall j :: 0 <= j < |events.keys| ==> events.keys[j] in EventAttrs(events.entries))
            && events.keys[i] in events.entries
            && AddAll(g, EventAttrs(events.entries), events.keys[i..])
               == AddAll(AddNode(g, events.keys[i], EventNode(events.entries[events.keys[i]])),
                         EventAttrs(events.entries), events.keys[i + 1..])
  {
    AddAllStep(g, EventAttrs(events.entries), events.keys, i);
  }

  /** The attributes `add_event` gives each event of `from_config`. */
  function EventAttrs(events: map<NodeId, EventData>): map<NodeId, NodeAttrs> {
    map k | k in events :: EventNode(events[k])
  }

  /** The connections applied in list order. */
  function ApplyConnections(g: GraphState, cs: seq<Connection>): GraphState
    decreases |cs|
  {
    if cs == [] then g else ApplyConnections(WithConnection(g, cs[0]), cs[1..])
  }

  /** One step of `ApplyConnections` from position `i` of `cs`. */
  lemma ApplyConnectionsStep(g: GraphState, cs: seq<Connection>, i: nat)
    requires i < |cs|
    ensures ApplyConnections(g, cs[i..]) == ApplyConnections(WithConnection(g, cs[i]), cs[i + 1..])
  {
    assert cs[i..][1..] == cs[i + 1..];
  }

  /** All edges the connections add, in order. */
  function ConnectionEdges(cs: seq<Connection>): seq<Edge>
    decreases |cs|
  {
    if cs == [] then [] else EdgesOf(cs[0]) + ConnectionEdges(cs[1..])
  }

  /** The endpoints the connections name, source before destination, in order. */
  function Endpoints(cs: seq<Connection>): seq<NodeId>
    decreases |cs|
  {
    if cs == [] then [] else [cs[0].src, cs[0].dst] + Endpoints(cs[1..])
  }

  lemma WithConnectionEdges(g: GraphState, c: Connection)
    ensures WithConnection(g, c).edges == g.edges + EdgesOf(c)
  {
  }

  lemma {:induction false} ApplyConnectionsEdges(g: GraphState, cs: seq<Connection>)
    ensures ApplyConnections(g, cs).edges == g.edges + ConnectionEdges(cs)
    decreases |cs|
  {
    if cs == [] {
      assert g.edges + [] == g.edges;
    } else {
      var next := WithConnection(g, cs[0]);
      WithConnectionEdges(g, cs[0]);
      ApplyConnectionsEdges(next, cs[1..]);
      assert ConnectionEdges(cs) == EdgesOf(cs[0]) + ConnectionEdges(cs[1..]);
      ConcatAssoc(g.edges, EdgesOf(cs[0]), ConnectionEdges(cs[1..]));
    }
  }

  lemma {:induction false} ApplyConnectionsWellformed(g: GraphState, cs: seq<Connection>)
    requires Wellformed(g)
    ensures Wellformed(ApplyConnections(g, cs))
    decreases |cs|
  {
    if cs != [] {
      ConnectShape(g, cs[0]);
      ApplyConnectionsWellformed(WithConnection(g, cs[0]), cs[1..]);
    }
  }

  lemma {:induction false} ApplyConnectionsNodes(g: GraphState, cs: seq<Connection>)
    requires Wellformed(g)
    ensures var h := ApplyConnections(g, cs);
      && h.nodes.keys == AppendNew(g.nodes.keys, Endpoints(cs))
      && (forall k :: k in h.nodes.entries <==> k in g.nodes.entries || k in Endpoints(cs))
      && (forall k :: k in g.nodes.entries ==> h.nodes.entries[k] == g.nodes.entries[k])
      && (forall k :: k in h.nodes.entries && k !in g.nodes.entries ==> h.nodes.entries[k] == Bare)
    decreases |cs|
  {
    if cs != [] {
      var next := WithConnection(g, cs[0]);
      ConnectShape(g, cs[0]);
      ApplyConnectionsNodes(next, cs[1..]);
      AppendNewConcat(g.nodes.keys, [cs[0].src, cs[0].dst], Endpoints(cs[1..]));
      assert forall k :: k in Endpoints(cs) <==> k == cs[0].src || k == cs[0].dst || k in Endpoints(cs[1..]);
    }
  }

  /**
   * Applying connections in order appends exactly their edges, keeps every
   * existing node's attributes and adds the endpoints not yet present, without
   * attributes, in the order the connections name them.
   */
  lemma ApplyConnectionsShape(g: GraphState, cs: seq<Connection>)
    requires Wellformed(g)
    ensures var h := ApplyConnections(g, cs);
      && Wellformed(h)
      && h.edges == g.edges + ConnectionEdges(cs)
      && h.nodes.keys == AppendNew(g.nodes.keys, Endpoints(cs))
      && (forall k :: k in h.nodes.entries <==> k in g.nodes.entries || k in Endpoints(cs))
      && (forall k :: k in g.nodes.entries ==> h.nodes.entries[k] == g.nodes.entries[k])
      && (forall k :: k in h.nodes.entries && k !in g.nodes.entries ==> h.nodes.entries[k] == Bare)
  {
    ApplyConnectionsEdges(g, cs);
    ApplyConnectionsWellformed(g, cs);
    ApplyConnectionsNodes(g, cs);
  }

  /** The graph after the two node loops of `from_config`: all people, then all events. */
  function Populated(people: Dict<NodeId, PersonData>, events: Dict<NodeId, EventData>): GraphState
    requires Valid(people) && Valid(events)
  {
    var withPeople := AddAll(EmptyGraph(), PersonAttrs(people.entries), people.keys);
    AddAll(withPeople, EventAttrs(events.entries), events.keys)
  }

  /** The graph `from_config(people, events, connections)` builds: all people, then all events, then the connections. */
  function Configured(people: Dict<NodeId, PersonData>, events: Dict<NodeId, EventData>, cs: seq<Connection>): GraphState
    requires Valid(people) && Valid(events)
  {
    ApplyConnections(Populated(people, events), cs)
  }

  lemma PopulatedAfterPeople(people: Dict<NodeId, PersonData>)
    requires Valid(people)
    ensures var g := AddAll(EmptyGraph(), PersonAttrs(people.entries), people.keys);
      && Wellformed(g)
      && g.edges == []
      && g.nodes.keys == AppendNew([], people.keys)
      && (forall k :: k in g.nodes.entries <==> k in people.entries)
      && (forall k :: k in people.entries ==> g.nodes.entries[k] == PersonNode(people.entries[k]))
  {
    AddAllShape(EmptyGraph(), PersonAttrs(people.entries), people.keys);
    KeysMembership(people);
  }

  /**
   * After the node loops: no edges; the ids in the order people and then events
   * first mention them; an id given as an event is an EVENT even when it is also
   * a person, because `add_node` overwrites the attributes.
   */
  lemma PopulatedShape(people: Dict<NodeId, PersonData>, events: Dict<NodeId, EventData>)
    requires Valid(people) && Valid(events)
    ensures var g := Populated(people, events);
      && Wellformed(g)
      && g.edges == []
      && g.nodes.keys == AppendNew([], people.keys + events.keys)
      && (forall k :: k in g.nodes.entries <==> k in people.entries || k in events.entries)
      && (forall k :: k in events.entries ==> g.nodes.entries[k] == EventNode(events.entries[k]))
      && (forall k :: k in people.entries && k !in events.entries ==> g.nodes.entries[k] == PersonNode(people.entries[k]))
  {
    var g1 := AddAll(EmptyGraph(), PersonAttrs(people.entries), people.keys);
    PopulatedAfterPeople(people);
    AddAllShape(g1, EventAttrs(events.entries), events.keys);
    KeysMembership(events);
    AppendNewConcat([], people.keys, events.keys);
  }

  /** `from_config` adds exactly the connection edges, in list order. */
  lemma ConfiguredEdges(people: Dict<NodeId, PersonData>, events: Dict<NodeId, EventData>, cs: seq<Connection>)
    requires Valid(people) && Valid(events)
    ensures Wellformed(Configured(people, events, cs))
    ensures Configured(people, events, cs).edges == ConnectionEdges(cs)
  {
    var g := Populated(people, events);
    PopulatedShape(people, events);
    ApplyConnectionsEdges(g, cs);
    ApplyConnectionsWellformed(g, cs);
    assert [] + ConnectionEdges(cs) == ConnectionEdges(cs);
  }

  /** The node order of `from_config`: people, then events, then connection endpoints, each id where first mentioned. */
  lemma ConfiguredNodeOrder(people: Dict<NodeId, PersonData>, events: Dict<NodeId, EventData>, cs: seq<Connection>)
    requires Valid(people) && Valid(events)
    ensures Configured(people, events, cs).nodes.keys == AppendNew([], people.keys + events.keys + Endpoints(cs))
  {
    var g := Populated(people, events);
    PopulatedShape(people, events);
    ApplyConnectionsNodes(g, cs);
    AppendNewConcat([], people.keys + events.keys, Endpoints(cs));
  }

  /**
   * The attributes `from_config` leaves: events as EVENT, people that are not
   * also events as PERSON, and ids only named by a connection without attributes.
   */
  lemma ConfiguredAttributes(people: Dict<NodeId, PersonData>, events: Dict<NodeId, EventData>, cs: seq<Connection>)
    requires Valid(people) && Valid(events)
    ensures var g := Configured(people, events, cs);
      && (forall k :: k in g.nodes.entries <==> k in people.entries || k in events.entries || k in Endpoints(cs))
      && (forall k :: k in events.entries ==> g.nodes.entries[k] == EventNode(events.entries[k]))
      && (forall k :: k in people.entries && k !in events.entries ==> g.nodes.entries[k] == PersonNode(people.entries[k]))
      && (forall k :: k in Endpoints(cs) && k !in people.entries && k !in events.entries ==> g.nodes.entries[k] == Bare)
  {
    var g := Populated(people, events);
    PopulatedShape(people, events);
    ApplyConnectionsNodes(g, cs);
  }

  /**
   * Without an id that is both a person and an event, and with every connection
   * between known ids, the node order is the people followed by the events.
   */
  lemma ConfiguredOrder(people: Dict<NodeId, PersonData>, events: Dict<NodeId, EventData>, cs: seq<Connection>)
    requires Valid(people) && Valid(events)
    requires forall k :: k in people.entries ==> k !in events.entries
    requires forall k :: k in Endpoints(cs) ==> k in people.entries || k in events.entries
    ensures Configured(people, events, cs).nodes.keys == people.keys + events.keys
  {
    ConfiguredNodeOrder(people, events, cs);
    KeysMembership(people);
    KeysMembership(events);
    var both := people.keys + events.keys;
    DistinctConcat(people.keys, events.keys);
    assert forall k :: k in both <==> k in people.keys || k in events.keys;
    AppendNewFresh([], both);
    assert [] + both == both;
    AppendNewConcat([], both, Endpoints(cs));
    AppendNewAbsorbs(both, Endpoints(cs));
  }

  /** There is an edge from `u` to `v`. */
  predicate HasEdge(edges: seq<Edge>, u: NodeId, v: NodeId) {
    exists i :: 0 <= i < |edges| && edges[i].src == u && edges[i].dst == v
  }

  /** `w` follows edges forwards from its first to its last id. */
  predicate IsWalk(edges: seq<Edge>, w: seq<NodeId>) {
    |w| >= 1 && forall i :: 0 <= i < |w| - 1 ==> HasEdge(edges, w[i], w[i + 1])
  }

  /**
   * `get_neighbors(id, max_distance=d)`: `id` itself, and for a distance above
   * zero also every node reached by following an outgoing edge from a node
   * within distance `d - 1`.
   */
  function Neighbors(g: GraphState, id: NodeId, d: nat): set<NodeId>
    decreases d
  {
    if d == 0 then {id}
    else
      var near := Neighbors(g, id, d - 1);
      near + set i | 0 <= i < |g.edges| && g.edges[i].src in near :: g.edges[i].dst
  }

  lemma {:induction false} NeighborsContainNode(g: GraphState, id: NodeId, d: nat)
    ensures id in Neighbors(g, id, d)
    decreases d
  {
    if d > 0 {
      NeighborsContainNode(g, id, d - 1);
    }
  }

  /** A walk followed by one more edge is a walk. */
  lemma ExtendWalk(edges: seq<Edge>, w: seq<NodeId>, x: NodeId)
    requires IsWalk(edges, w) && HasEdge(edges, w[|w| - 1], x)
    ensures IsWalk(edges, w + [x])
  {
    var w' := w + [x];
    forall j | 0 <= j < |w'| - 1
      ensures HasEdge(edges, w'[j], w'[j + 1])
    {
      if j < |w| - 1 {
        assert w'[j] == w[j] && w'[j + 1] == w[j + 1];
      } else {
        assert w'[j] == w[|w| - 1] && w'[j + 1] == x;
      }
    }
  }

  /** Every node within distance `d` is reached by a walk of at most `d` edges. */
  lemma {:induction false} NeighborsHaveWalks(g: GraphState, id: NodeId, d: nat, x: NodeId) returns (w: seq<NodeId>)
    requires x in Neighbors(g, id, d)
    ensures IsWalk(g.edges, w) && w[0] == id && w[|w| - 1] == x && |w| <= d + 1
    decreases d
  {
    if d == 0 {
      w := [id];
    } else {
      var near := Neighbors(g, id, d - 1);
      if x in near {
        w := NeighborsHaveWalks(g, id, d - 1, x);
      } else {
        var i :| 0 <= i < |g.edges| && g.edges[i].src in near && g.edges[i].dst == x;
        var y := g.edges[i].src;
        var v := NeighborsHaveWalks(g, id, d - 1, y);
        assert HasEdge(g.edges, y, x);
        ExtendWalk(g.edges, v, x);
        w := v + [x];
      }
    }
  }

  /** Every walk of at most `d` edges from `id` ends within distance `d`. */
  lemma {:induction false} WalksReachNeighbors(g: GraphState, id: NodeId, d: nat, w: seq<NodeId>)
    requires IsWalk(g.edges, w) && w[0] == id && |w| <= d + 1
    ensures w[|w| - 1] in Neighbors(g, id, d)
    decreases d
  {
    if |w| == 1 {
      NeighborsContainNode(g, id, d);
    } else {
      var w' := w[..|w| - 1];
      assert IsWalk(g.edges, w') by {
        forall j | 0 <= j < |w'| - 1
          ensures HasEdge(g.edges, w'[j], w'[j + 1])
        {
          assert w'[j] == w[j] && w'[j + 1] == w[j + 1];
        }
      }
      WalksReachNeighbors(g, id, d - 1, w');
      var y, x := w[|w| - 2], w[|w| - 1];
      assert HasEdge(g.edges, y, x);
      var i :| 0 <= i < |g.edges| && g.edges[i].src == y && g.edges[i].dst == x;
      assert y in Neighbors(g, id, d - 1);
    }
  }

  /** Distance 1 is the node and the destinations of its outgoing edges. */
  lemma DirectNeighbors(g: GraphState, id: NodeId, x: NodeId)
    ensures x in Neighbors(g, id, 1) <==> x == id || HasEdge(g.edges, id, x)
  {
    assert Neighbors(g, id, 0) == {id};
    if HasEdge(g.edges, id, x) {
      var i :| 0 <= i < |g.edges| && g.edges[i].src == id && g.edges[i].dst == x;
    }
  }

  /** In a well-formed graph the neighbours of `id` are `id` itself and nodes of the graph. */
  lemma {:induction false} NeighborsInGraph(g: GraphState, id: NodeId, d: nat)
    requires Wellformed(g)
    ensures forall x :: x in Neighbors(g, id, d) ==> x == id || x in g.nodes.entries
    decreases d
  {
    if d > 0 {
      NeighborsInGraph(g, id, d - 1);
    }
  }

  /** A larger distance never loses a neighbour. */
  lemma NeighborsGrow(g: GraphState, id: NodeId, d: nat, e: nat)
    requires d <= e
    ensures Neighbors(g, id, d) <= Neighbors(g, id, e)
    decreases e
  {
    if d < e {
      NeighborsGrow(g, id, d, e - 1);
    }
  }

  /** The text renderers of a knowledge graph, as functions of its state. */
  datatype TextRenderer = TextRenderer(
    /** `node_to_text(id)` */
    nodeText: (GraphState, NodeId) -> string,
    /** `nodes_to_text(ids)` */
    nodesText: (GraphState, set<NodeId>) -> string)

  /** `KnowledgeGraph`: the graph state, changed in place by its methods. */
  class KnowledgeGraph {
    const renderer: TextRenderer
    var nodes: Dict<NodeId, NodeAttrs>
    var edges: seq<Edge>

    function State(): GraphState
      reads this
    {
      GraphState(nodes, edges)
    }

    predicate Valid()
      reads this
    {
      Wellformed(State())
    }

    /** `KnowledgeGraph()`: an empty multigraph. */
    constructor (renderer: TextRenderer)
      ensures Valid() && State() == EmptyGraph() && this.renderer == renderer
    {
      this.renderer := renderer;
      nodes := Empty();
      edges := [];
    }

    /** `add_person(id, person_data)` */
    method AddPerson(id: NodeId, person: PersonData) returns (r: NodeId)
      requires Valid()
      modifies this
      ensures Valid() && r == id
      ensures State() == AddNode(old(State()), id, PersonNode(person))
      ensures id in nodes.entries && nodes.entries[id] == PersonNode(person) && TypeOf(nodes.entries[id]) == Some(PERSON)
      ensures edges == old(edges)
    {
      AddNodeShape(State(), id, PersonNode(person));
      nodes := Put(nodes, id, PersonNode(person));
      r := id;
    }

    /** `add_event(id, event)` */
    method AddEvent(id: NodeId, event: EventData) returns (r: NodeId)
      requires Valid()
      modifies this
      ensures Valid() && r == id
      ensures State() == AddNode(old(State()), id, EventNode(event))
      ensures id in nodes.entries && nodes.entries[id] == EventNode(event) && TypeOf(nodes.entries[id]) == Some(EVENT)
      ensures edges == old(edges)
    {
      AddNodeShape(State(), id, EventNode(event));
      nodes := Put(nodes, id, EventNode(event));
      r := id;
    }

    /** `connect(src, relation, dest, bidirectional)` */
    method Connect(src: NodeId, relation: string, dest: NodeId, bidirectional: bool)
      requires Valid()
      modifies this
      ensures Valid()
      ensures State() == WithConnection(old(State()), Connection(src, relation, dest, bidirectional))
      ensures edges == old(edges) + EdgesOf(Connection(src, relation, dest, bidirectional))
      ensures src in old(nodes.entries) && dest in old(nodes.entries) ==> nodes == old(nodes)
    {
      ConnectShape(State(), Connection(src, relation, dest, bidirectional));
      nodes := EnsureNode(EnsureNode(nodes, src), dest);
      edges := edges + [Edge(src, dest, relation)];
      if bidirectional {
        nodes := EnsureNode(EnsureNode(nodes, dest), src);
        edges := edges + [Edge(dest, src, relation)];
      }
    }

    /** `get_nodes()`: the node ids in insertion order. */
    function GetNodes(): (ids: seq<NodeId>)
      requires Valid()
      reads this
      ensures Distinct(ids) && forall k :: k in ids <==> k in nodes.entries
    {
      nodes.keys
    }

    /** `get_neighbors(id, max_distance)` */
    function GetNeighbors(id: NodeId, maxDistance: nat): (ids: set<NodeId>)
      requires Valid()
      reads this
      ensures id in ids && forall x :: x in ids ==> x == id || x in nodes.entries
    {
      NeighborsContainNode(State(), id, maxDistance);
      NeighborsInGraph(State(), id, maxDistance);
      Neighbors(State(), id, maxDistance)
    }

    /** `node_to_text(id)` */
    function NodeToText(id: NodeId): string
      reads this
    {
      renderer.nodeText(State(), id)
    }

    /** `nodes_to_text(ids)` */
    function NodesToText(ids: set<NodeId>): string
      reads this
    {
      renderer.nodesText(State(), ids)
    }

    /** The first loop of `from_config`: `add_person` for each person, in dict order. */
    method AddPeople(people: Dict<NodeId, PersonData>)
      requires Valid() && Dicts.Valid(people)
      modifies this
      ensures Valid() && State() == AddAll(old(State()), PersonAttrs(people.entries), people.keys)
    {
      var attrs := PersonAttrs(people.entries);
      PersonAttrsCover(people);
      ghost var target := AddAll(State(), attrs, people.keys);
      for i := 0 to |people.keys|
        invariant Valid()
        invariant AddAll(State(), attrs, people.keys[i..]) == target
      {
        AddPeopleStep(State(), people, i);
        var id := people.keys[i];
        var _ := AddPerson(id, people.entries[id]);
      }
    }

    /** The second loop of `from_config`: `add_event` for each event, in dict order. */
    method AddEvents(events: Dict<NodeId, EventData>)
      requires Valid() && Dicts.Valid(events)
      modifies this
      ensures Valid() && State() == AddAll(old(State()), EventAttrs(events.entries), events.keys)
    {
      var attrs := EventAttrs(events.entries);
      EventAttrsCover(events);
      ghost var target := AddAll(State(), attrs, events.keys);
      for i := 0 to |events.keys|
        invariant Valid()
        invariant AddAll(State(), attrs, events.keys[i..]) == target
      {
        AddEventsStep(State(), events, i);
        var id := events.keys[i];
        var _ := AddEvent(id, events.entries[id]);
      }
    }

    /** The third loop of `from_config`: `connect(*connection)` for each connection, in list order. */
    method ConnectAll(connections: seq<Connection>)
      requires Valid()
      modifies this
      ensures Valid() && State() == ApplyConnections(old(State()), connections)
    {
      ghost var target := ApplyConnections(State(), connections);
      for i := 0 to |connections|
        invariant Valid()
        invariant ApplyConnections(State(), connections[i..]) == target
      {
        var c := connections[i];
        ApplyConnectionsStep(State(), connections, i);
        Connect(c.src, c.relation, c.dst, c.bidirectional);
      }
    }

    /** `KnowledgeGraph.from_config(people, events, connections)` */
    static method FromConfig(renderer: TextRenderer, people: Dict<NodeId, PersonData>, events: Dict<NodeId, EventData>,
                             connections: seq<Connection>) returns (kg: KnowledgeGraph)
      requires Dicts.Valid(people) && Dicts.Valid(events)
      ensures fresh(kg) && kg.Valid() && kg.renderer == renderer
      ensures kg.State() == Configured(people, events, connections)
    {
      kg := new KnowledgeGraph(renderer);
      kg.AddPeople(people);
      kg.AddEvents(events);
      kg.ConnectAll(connections);
    }
  }
}
