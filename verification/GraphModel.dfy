/** The value a graph object stands for: its nodes, its edges and the two adjacency
    indexes, with the merge rules of `add_node` and `add_edge`. */
module GraphModel {
  import opened Options

  datatype EntityId = EntityId(text: string)
  datatype EdgeId = EdgeId(text: string)
  type Time = int

  datatype EntityKind = Merchant | Account | Device | Ip | PaymentInstrument | Transaction | Order

  datatype NodeVal = NodeVal(
    id: EntityId, kind: EntityKind, first: Time, last: Time, risk: real, count: int)

  datatype EdgeVal = EdgeVal(
    id: EdgeId, source: EntityId, target: EntityId, first: Time, last: Time,
    count: int, successes: int, failures: int)

  datatype Graph = Graph(
    nodes: map<EntityId, NodeVal>,
    edges: map<EdgeId, EdgeVal>,
    outgoing: map<EntityId, seq<EdgeId>>,
    incoming: map<EntityId, seq<EdgeId>>)

  const EMPTY := Graph(map[], map[], map[], map[])

  function Earlier(a: Time, b: Time): Time { if b < a then b else a }

  function Later(a: Time, b: Time): Time { if b > a then b else a }

  function MergeNode(old0: NodeVal, new0: NodeVal): NodeVal {
    old0.(first := Earlier(old0.first, new0.first),
          last := Later(old0.last, new0.last),
          count := old0.count + new0.count,
          risk := if new0.risk > old0.risk then new0.risk else old0.risk)
  }

  function MergeEdge(old0: EdgeVal, new0: EdgeVal): EdgeVal {
    old0.(first := Earlier(old0.first, new0.first),
          last := Later(old0.last, new0.last),
          count := old0.count + new0.count,
          successes := old0.successes + new0.successes,
          failures := old0.failures + new0.failures)
  }

  /** The list stored for `x`, or the empty list: `dict.get(x, [])`. */
  function Listed<T>(index: map<EntityId, seq<T>>, x: EntityId): seq<T> {
    if x in index then index[x] else []
  }

  function AddNode(g: Graph, n: NodeVal): Graph {
    g.(nodes := g.nodes[n.id := if n.id in g.nodes then MergeNode(g.nodes[n.id], n) else n])
  }

  function AddEdge(g: Graph, e: EdgeVal): Graph {
    if e.id in g.edges then
      g.(edges := g.edges[e.id := MergeEdge(g.edges[e.id], e)])
    else
      Graph(g.nodes,
            g.edges[e.id := e],
            g.outgoing[e.source := Listed(g.outgoing, e.source) + [e.id]],
            g.incoming[e.target := Listed(g.incoming, e.target) + [e.id]])
  }

  // ----- runs of updates

  datatype Update = NodeUpdate(node: NodeVal) | EdgeUpdate(edge: EdgeVal)

  function Apply(g: Graph, u: Update): Graph {
    match u
    case NodeUpdate(n) => AddNode(g, n)
    case EdgeUpdate(e) => AddEdge(g, e)
  }

  function ApplyAll(g: Graph, us: seq<Update>): Graph {
    if us == [] then g else Apply(ApplyAll(g, us[..|us| - 1]), us[|us| - 1])
  }

  // ----- coherence of the three indexes

  function Sources(edges: map<EdgeId, EdgeVal>): map<EdgeId, EntityId> {
    map k | k in edges :: edges[k].source
  }

  function Targets(edges: map<EdgeId, EdgeVal>): map<EdgeId, EntityId> {
    map k | k in edges :: edges[k].target
  }

  /** Edge `k` occurs exactly once in the list of its end, and nowhere else. */
  ghost predicate Indexes(index: map<EntityId, seq<EdgeId>>, ends: map<EdgeId, EntityId>) {
    forall x, k {:trigger multiset(Listed(index, x))[k]} ::
      multiset(Listed(index, x))[k] == if k in ends && ends[k] == x then 1 else 0
  }

  /** Every edge is listed exactly once under its source and once under its target,
      and the lists hold nothing else. */
  ghost predicate Coherent(g: Graph) {
    && (forall k | k in g.nodes :: g.nodes[k].id == k)
    && (forall k | k in g.edges :: g.edges[k].id == k)
    && Indexes(g.outgoing, Sources(g.edges))
    && Indexes(g.incoming, Targets(g.edges))
  }

  lemma IndexAppend(index: map<EntityId, seq<EdgeId>>, ends: map<EdgeId, EntityId>, x: EntityId, k: EdgeId)
    requires Indexes(index, ends) && k !in ends
    ensures Indexes(index[x := Listed(index, x) + [k]], ends[k := x])
  {
    var index', ends' := index[x := Listed(index, x) + [k]], ends[k := x];
    forall y, j
      ensures multiset(Listed(index', y))[j] == if j in ends' && ends'[j] == y then 1 else 0
    {
      assert multiset(Listed(index, y))[j] == if j in ends && ends[j] == y then 1 else 0;
      assert multiset(Listed(index, x) + [k])[j] == multiset(Listed(index, x))[j] + (if j == k then 1 else 0);
    }
  }

  lemma EndsAfterAddEdge(g: Graph, e: EdgeVal)
    ensures Sources(AddEdge(g, e).edges) ==
            if e.id in g.edges then Sources(g.edges) else Sources(g.edges)[e.id := e.source]
    ensures Targets(AddEdge(g, e).edges) ==
            if e.id in g.edges then Targets(g.edges) else Targets(g.edges)[e.id := e.target]
  {
  }

  lemma AddEdgeKeepsCoherent(g: Graph, e: EdgeVal)
    requires Coherent(g)
    ensures Coherent(AddEdge(g, e))
  {
    EndsAfterAddEdge(g, e);
    if e.id !in g.edges {
      IndexAppend(g.outgoing, Sources(g.edges), e.source, e.id);
      IndexAppend(g.incoming, Targets(g.edges), e.target, e.id);
    }
  }

  lemma ApplyKeepsCoherent(g: Graph, u: Update)
    requires Coherent(g)
    ensures Coherent(Apply(g, u))
  {
    match u
    case NodeUpdate(n) =>
    case EdgeUpdate(e) => AddEdgeKeepsCoherent(g, e);
  }

  lemma {:induction false} RunKeepsCoherent(g: Graph, us: seq<Update>)
    requires Coherent(g)
    ensures Coherent(ApplyAll(g, us))
  {
    if us == [] {
    } else {
      RunKeepsCoherent(g, us[..|us| - 1]);
      ApplyKeepsCoherent(ApplyAll(g, us[..|us| - 1]), us[|us| - 1]);
    }
  }

  /** Index coherence holds in every graph a run of updates can reach. */
  lemma ReachableGraphsAreCoherent(us: seq<Update>)
    ensures Coherent(ApplyAll(EMPTY, us))
  {
    RunKeepsCoherent(EMPTY, us);
  }

  lemma ListedIffEnd(index: map<EntityId, seq<EdgeId>>, ends: map<EdgeId, EntityId>, x: EntityId, k: EdgeId)
    requires Indexes(index, ends)
    ensures k in Listed(index, x) <==> k in ends && ends[k] == x
  {
    assert multiset(Listed(index, x))[k] == if k in ends && ends[k] == x then 1 else 0;
    assert k in Listed(index, x) <==> k in multiset(Listed(index, x));
  }

  // ----- the time cut

  predicate VisibleAt(e: EdgeVal, asOf: Option<Time>) {
    asOf.None? || e.first <= asOf.value
  }

  /** The ids in `ks` that are visible at the cut, in list order. */
  function VisibleOf(g: Graph, ks: seq<EdgeId>, asOf: Option<Time>): seq<EdgeId> {
    if ks == [] then []
    else
      var rest, k := VisibleOf(g, ks[..|ks| - 1], asOf), ks[|ks| - 1];
      if k in g.edges && VisibleAt(g.edges[k], asOf) then rest + [k] else rest
  }

  lemma {:induction false} VisibleMember(g: Graph, ks: seq<EdgeId>, asOf: Option<Time>, k: EdgeId)
    ensures k in VisibleOf(g, ks, asOf) <==> k in ks && k in g.edges && VisibleAt(g.edges[k], asOf)
  {
    if ks == [] {
    } else {
      var n := |ks| - 1;
      VisibleMember(g, ks[..n], asOf, k);
      assert k in ks <==> k in ks[..n] || k == ks[n] by { assert ks == ks[..n] + [ks[n]]; }
    }
  }

  lemma {:induction false} EverythingVisible(g: Graph, ks: seq<EdgeId>)
    requires forall i | 0 <= i < |ks| :: ks[i] in g.edges
    ensures VisibleOf(g, ks, None) == ks
  {
    if ks == [] {
    } else {
      var n := |ks| - 1;
      EverythingVisible(g, ks[..n]);
      assert ks == ks[..n] + [ks[n]];
    }
  }

  function Touching(g: Graph, x: EntityId): seq<EdgeId> {
    Listed(g.outgoing, x) + Listed(g.incoming, x)
  }

  lemma TouchingMember(g: Graph, x: EntityId, k: EdgeId)
    requires Coherent(g)
    ensures k in Touching(g, x) <==> k in g.edges && (g.edges[k].source == x || g.edges[k].target == x)
  {
    ListedIffEnd(g.outgoing, Sources(g.edges), x, k);
    ListedIffEnd(g.incoming, Targets(g.edges), x, k);
  }

  /** `get_incident_edges`, as edge ids in list order. */
  function Incident(g: Graph, x: EntityId, asOf: Option<Time>): seq<EdgeId> {
    VisibleOf(g, Touching(g, x), asOf)
  }

  /** An edge is incident to `x` exactly when it was first seen at the cut or before and ends
      in `x`. */
  lemma IncidentMember(g: Graph, x: EntityId, asOf: Option<Time>, k: EdgeId)
    requires Coherent(g)
    ensures k in Incident(g, x, asOf) <==>
            && k in g.edges && (asOf.Some? ==> g.edges[k].first <= asOf.value)
            && (g.edges[k].source == x || g.edges[k].target == x)
  {
    VisibleMember(g, Touching(g, x), asOf, k);
    TouchingMember(g, x, k);
  }

  function OtherEnd(e: EdgeVal, x: EntityId): EntityId {
    if e.source == x then e.target else e.source
  }

  /** `get_node`: the node if it was first seen at or before the cut. */
  function NodeAsOf(g: Graph, x: EntityId, asOf: Option<Time>): Option<NodeVal> {
    if x !in g.nodes then None
    else if asOf.Some? && g.nodes[x].first > asOf.value then None
    else Some(g.nodes[x])
  }
}
