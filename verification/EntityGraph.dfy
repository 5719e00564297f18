/** The mutable graph: node and edge objects, and three indexes that share the edge objects. */
module EntityGraphs {
  import opened Options
  import opened GraphModel
  import opened SetSums
  import opened Traversal

  class EntityNode {
    const entityId: EntityId
    const kind: EntityKind
    var firstSeen: Time
    var lastSeen: Time
    var riskBaseScore: real
    var occurrenceCount: int

    function Value(): NodeVal reads this {
      NodeVal(entityId, kind, firstSeen, lastSeen, riskBaseScore, occurrenceCount)
    }

    constructor (v: NodeVal)
      ensures Value() == v
    {
      entityId, kind := v.id, v.kind;
      firstSeen, lastSeen := v.first, v.last;
      riskBaseScore, occurrenceCount := v.risk, v.count;
    }

    /** Fold another sighting into this node; `node` may be this very object. */
    method Merge(node: EntityNode)
      modifies this
      ensures Value() == MergeNode(old(Value()), old(node.Value()))
    {
      if node.firstSeen < firstSeen {
        firstSeen := node.firstSeen;
      }
      if node.lastSeen > lastSeen {
        lastSeen := node.lastSeen;
      }
      occurrenceCount := occurrenceCount + node.occurrenceCount;
      if node.riskBaseScore > riskBaseScore {
        riskBaseScore := node.riskBaseScore;
      }
    }
  }

  class EntityEdge {
    const edgeId: EdgeId
    const sourceId: EntityId
    const targetId: EntityId
    var firstSeen: Time
    var lastSeen: Time
    var occurrenceCount: int
    var successCount: int
    var failureCount: int

    function Value(): EdgeVal reads this {
      EdgeVal(edgeId, sourceId, targetId, firstSeen, lastSeen, occurrenceCount, successCount, failureCount)
    }

    constructor (v: EdgeVal)
      ensures Value() == v
    {
      edgeId, sourceId, targetId := v.id, v.source, v.target;
      firstSeen, lastSeen := v.first, v.last;
      occurrenceCount, successCount, failureCount := v.count, v.successes, v.failures;
    }

    method Merge(edge: EntityEdge)
      modifies this
      ensures Value() == MergeEdge(old(Value()), old(edge.Value()))
    {
      if edge.firstSeen < firstSeen {
        firstSeen := edge.firstSeen;
      }
      if edge.lastSeen > lastSeen {
        lastSeen := edge.lastSeen;
      }
      occurrenceCount := occurrenceCount + edge.occurrenceCount;
      successCount := successCount + edge.successCount;
      failureCount := failureCount + edge.failureCount;
    }
  }

  /** An index lists the ids `ids` gives, holding the very objects of `edges`, so that a
      merge into an edge shows in all three. */
  ghost predicate Mirrors(
    index: map<EntityId, seq<EntityEdge>>, ids: map<EntityId, seq<EdgeId>>, edges: map<EdgeId, EntityEdge>)
  {
    && index.Keys == ids.Keys
    && (forall x | x in index :: |index[x]| == |ids[x]|)
    && (forall x, i | x in index && 0 <= i < |index[x]| ::
          ids[x][i] in edges && edges[ids[x][i]] == index[x][i])
  }

  lemma MirrorsAppend(
    index: map<EntityId, seq<EntityEdge>>, ids: map<EntityId, seq<EdgeId>>, edges: map<EdgeId, EntityEdge>,
    x: EntityId, k: EdgeId, o: EntityEdge)
    requires Mirrors(index, ids, edges) && k !in edges
    ensures Mirrors(index[x := Listed(index, x) + [o]], ids[x := Listed(ids, x) + [k]], edges[k := o])
  {
    var index', ids', edges' := index[x := Listed(index, x) + [o]], ids[x := Listed(ids, x) + [k]], edges[k := o];
    forall y, i | y in index' && 0 <= i < |index'[y]|
      ensures ids'[y][i] in edges' && edges'[ids'[y][i]] == index'[y][i]
    {
      if y != x || i < |Listed(index, x)| {
        assert ids'[y][i] == ids[y][i] && index'[y][i] == index[y][i];
      }
    }
  }

  // ----- the loop variables of the traversals

  /** The `visited` set and the queue of (id, depth) pairs hold the search state `s`. */
  ghost predicate Holds(s: Search, visited: set<EntityId>, queue: seq<(EntityId, int)>)
  {
    && QueueLabelled(s)
    && visited == s.depth.Keys
    && |queue| == |s.queue|
    && forall i | 0 <= i < |queue| :: queue[i] == (s.queue[i], s.depth[s.queue[i]])
  }

  lemma StepCases(g: Graph, asOf: Option<Time>, maxDepth: int, s: Search)
    requires s.queue != [] && s.queue[0] in s.depth
    ensures var x := s.queue[0];
      Step(g, asOf, maxDepth, s) ==
      if s.depth[x] < maxDepth then Discover(Taken(s), Neighbors(g, x, asOf), s.depth[x] + 1)
      else s.(queue := s.queue[1..])
  {
  }

  lemma StartHolds(r: EntityId)
    ensures Holds(Start(r), {r}, [(r, 0)]) && HopsOf(Start(r).depth) == Hops({}, {})
  {
  }

  lemma PopHolds(s: Search, visited: set<EntityId>, queue: seq<(EntityId, int)>)
    requires Holds(s, visited, queue) && queue != []
    ensures Holds(Taken(s), visited, queue[1..]) && Holds(s.(queue := s.queue[1..]), visited, queue[1..])
  {
  }

  lemma DiscoverNext(s: Search, ns: seq<EntityId>, i: nat, d: nat)
    requires i < |ns|
    ensures Discover(s, ns[..i + 1], d) == Visit(Discover(s, ns[..i], d), ns[i], d)
  {
    assert ns[..i + 1][..i] == ns[..i];
  }

  /** The end of `edge` that is not `x`; of a self-loop, `x` itself. */
  function OtherEndOf(edge: EntityEdge, x: EntityId): EntityId {
    if edge.sourceId == x then edge.targetId else edge.sourceId
  }

  /** The hop sets after id `v` was met at depth `d`; only depths 1 and 2 are kept. */
  function Recorded(h: Hops, v: EntityId, d: int): Hops {
    if d == 1 then h.(one := h.one + {v}) else if d == 2 then h.(two := h.two + {v}) else h
  }

  lemma VisitHolds(s: Search, visited: set<EntityId>, queue: seq<(EntityId, int)>, v: EntityId, d: nat)
    requires Holds(s, visited, queue)
    ensures v in visited ==> Visit(s, v, d) == s
    ensures v !in visited ==>
              Holds(Visit(s, v, d), visited + {v}, queue + [(v, d)])
              && HopsOf(Visit(s, v, d).depth) == Recorded(HopsOf(s.depth), v, d)
  {
    if v !in visited {
      var t := Visit(s, v, d);
      forall i | 0 <= i < |t.queue| ensures t.queue[i] in t.depth
        && (queue + [(v, d)])[i] == (t.queue[i], t.depth[t.queue[i]]) {
        if i < |s.queue| { assert s.queue[i] in s.depth && s.queue[i] != v; }
      }
      assert HopsOf(t.depth).one == Recorded(HopsOf(s.depth), v, d).one;
      assert HopsOf(t.depth).two == Recorded(HopsOf(s.depth), v, d).two;
    }
  }

  function AsSet<T>(s: seq<T>): set<T> { set x | x in s }

  /** Walking the queue head adds its incident edges to those touching walked ids. */
  lemma StepEdges(g: Graph, asOf: Option<Time>, maxDepth: int, s: Search)
    requires Coherent(g) && s.queue != [] && s.queue[0] in s.depth
    ensures EdgesTouching(g, asOf, Step(g, asOf, maxDepth, s).expanded) ==
            if s.depth[s.queue[0]] < maxDepth
            then EdgesTouching(g, asOf, s.expanded) + AsSet(Incident(g, s.queue[0], asOf))
            else EdgesTouching(g, asOf, s.expanded)
  {
    if s.depth[s.queue[0]] < maxDepth {
      var found := ExpandDiscovers(g, asOf, s);
      var x := s.queue[0];
      assert Expand(g, asOf, s).expanded == s.expanded + {x};
      forall k ensures k in Incident(g, x, asOf) <==> k in EdgesTouching(g, asOf, {x}) {
        IncidentMember(g, x, asOf, k);
      }
    }
  }

  class EntityGraph {
    var nodes: map<EntityId, EntityNode>
    var edges: map<EdgeId, EntityEdge>
    var adjOut: map<EntityId, seq<EntityEdge>>
    var adjIn: map<EntityId, seq<EntityEdge>>
    ghost var view: Graph  // the graph these objects stand for

    ghost predicate NodesMirrored()
      reads this, nodes.Values
    {
      nodes.Keys == view.nodes.Keys && forall k | k in nodes :: nodes[k].Value() == view.nodes[k]
    }

    ghost predicate EdgesMirrored()
      reads this, edges.Values
    {
      edges.Keys == view.edges.Keys && forall k | k in edges :: edges[k].Value() == view.edges[k]
    }

    ghost predicate Valid()
      reads this, nodes.Values, edges.Values
    {
      && NodesMirrored() && EdgesMirrored()
      && Mirrors(adjOut, view.outgoing, edges) && Mirrors(adjIn, view.incoming, edges)
      && Coherent(view)
    }

    constructor ()
      ensures Valid() && view == EMPTY && nodes == map[] && edges == map[]
    {
      nodes, edges, adjOut, adjIn, view := map[], map[], map[], map[], EMPTY;
    }

    /** Put a copy of a new node into the store. */
    method InsertNode(node: EntityNode)
      requires Valid() && node.entityId !in nodes
      modifies this`nodes, this`view
      ensures Valid() && view == GraphModel.AddNode(old(view), node.Value())
      ensures forall o | o in nodes.Values :: o in old(nodes.Values) || fresh(o)
    {
      hide Coherent, Mirrors;
      ApplyKeepsCoherent(view, NodeUpdate(node.Value()));
      view := GraphModel.AddNode(view, node.Value());
      var copy := new EntityNode(node.Value());
      nodes := nodes[node.entityId := copy];
      assert EdgesMirrored();
    }

    /** Add a copy of the node, or merge it into the stored one. */
    method AddNode(node: EntityNode)
      requires Valid()
      modifies this`nodes, this`view, nodes.Values
      ensures Valid() && view == GraphModel.AddNode(old(view), old(node.Value()))
      ensures forall o | o in nodes.Values :: o in old(nodes.Values) || fresh(o)
    {
      if node.entityId !in nodes {
        InsertNode(node);
      } else {
        ApplyKeepsCoherent(view, NodeUpdate(node.Value()));
        view := GraphModel.AddNode(view, node.Value());
        nodes[node.entityId].Merge(node);
        assert NodesMirrored();
      }
    }

    /** Put one new edge object into all three indexes. */
    method IndexEdge(newEdge: EntityEdge)
      requires Valid() && newEdge.edgeId !in edges
      modifies this`edges, this`adjOut, this`adjIn, this`view
      ensures Valid() && view == GraphModel.AddEdge(old(view), newEdge.Value())
      ensures edges == old(edges)[newEdge.edgeId := newEdge]
    {
      AddEdgeKeepsCoherent(view, newEdge.Value());
      MirrorsAppend(adjOut, view.outgoing, edges, newEdge.sourceId, newEdge.edgeId, newEdge);
      MirrorsAppend(adjIn, view.incoming, edges, newEdge.targetId, newEdge.edgeId, newEdge);
      view := GraphModel.AddEdge(view, newEdge.Value());
      edges := edges[newEdge.edgeId := newEdge];
      adjOut := adjOut[newEdge.sourceId := Listed(adjOut, newEdge.sourceId) + [newEdge]];
      adjIn := adjIn[newEdge.targetId := Listed(adjIn, newEdge.targetId) + [newEdge]];
    }

    /** Put a copy of a new edge into all three indexes. */
    method InsertEdge(edge: EntityEdge)
      requires Valid() && edge.edgeId !in edges
      modifies this`edges, this`adjOut, this`adjIn, this`view
      ensures Valid() && view == GraphModel.AddEdge(old(view), edge.Value())
      ensures forall o | o in edges.Values :: o in old(edges.Values) || fresh(o)
    {
      var newEdge := new EntityEdge(edge.Value());
      IndexEdge(newEdge);
    }

    /** Add a copy of the edge, or merge it into the object the three indexes share. */
    method AddEdge(edge: EntityEdge)
      requires Valid()
      modifies this`edges, this`adjOut, this`adjIn, this`view, edges.Values
      ensures Valid() && view == GraphModel.AddEdge(old(view), old(edge.Value()))
      ensures forall o | o in edges.Values :: o in old(edges.Values) || fresh(o)
    {
      if edge.edgeId !in edges {
        InsertEdge(edge);
      } else {
        AddEdgeKeepsCoherent(view, edge.Value());
        view := GraphModel.AddEdge(view, edge.Value());
        edges[edge.edgeId].Merge(edge);
        assert EdgesMirrored();
      }
    }

    /** The node if it had been seen by the cut. */
    method GetNode(entityId: EntityId, asOf: Option<Time>) returns (r: Option<EntityNode>)
      requires Valid()
      ensures r.Some? <==> NodeAsOf(view, entityId, asOf).Some?
      ensures r.Some? ==> r.value.Value() == NodeAsOf(view, entityId, asOf).value
      ensures r.Some? ==> entityId in nodes && r.value == nodes[entityId]
    {
      if entityId !in nodes {
        return None;
      }
      var node := nodes[entityId];
      if asOf.Some? && node.firstSeen > asOf.value {
        return None;
      }
      return Some(node);
    }

    ghost predicate Matches(objects: seq<EntityEdge>, ids: seq<EdgeId>)
      reads this
    {
      |objects| == |ids| && forall i | 0 <= i < |ids| :: ids[i] in edges && edges[ids[i]] == objects[i]
    }

    /** The stored edge objects at `entityId` that are visible at the cut, in list order. */
    method GetIncidentEdges(entityId: EntityId, asOf: Option<Time>) returns (r: seq<EntityEdge>)
      requires Valid()
      ensures Matches(r, Incident(view, entityId, asOf))
      ensures |r| == |Incident(view, entityId, asOf)| == |Neighbors(view, entityId, asOf)|
    {
      var allEdges := Listed(adjOut, entityId) + Listed(adjIn, entityId);
      assert Matches(allEdges, Touching(view, entityId));
      if asOf.None? {
        EverythingVisible(view, Touching(view, entityId));
        return allEdges;
      }
      r := KeepVisible(allEdges, asOf, Touching(view, entityId));
    }

    /** They are the objects first seen at the cut or before that end in `entityId`. */
    lemma SeenObjects(r: seq<EntityEdge>, entityId: EntityId, asOf: Option<Time>, o: EntityEdge)
      requires Valid() && Matches(r, Incident(view, entityId, asOf))
      ensures o in r <==>
              && o in edges.Values && (asOf.Some? ==> o.firstSeen <= asOf.value)
              && (o.sourceId == entityId || o.targetId == entityId)
    {
      var ids := Incident(view, entityId, asOf);
      IncidentMember(view, entityId, asOf, o.edgeId);
      hide Incident;
      if o in r {
        var i :| 0 <= i < |r| && r[i] == o;
        assert edges[ids[i]] == o && ids[i] in ids;
        assert edges[ids[i]].Value() == view.edges[ids[i]];
      }
      if o in edges.Values {
        var k :| k in edges && edges[k] == o;
        assert edges[k].Value() == view.edges[k];
        if k in ids {
          var i :| 0 <= i < |ids| && ids[i] == k;
          assert r[i] == o;
        }
      }
    }

    /** The filter loop of `get_incident_edges`. */
    method KeepVisible(allEdges: seq<EntityEdge>, asOf: Option<Time>, ghost ids: seq<EdgeId>)
      returns (r: seq<EntityEdge>)
      requires EdgesMirrored() && Matches(allEdges, ids) && asOf.Some?
      ensures Matches(r, VisibleOf(view, ids, asOf))
    {
      r := [];
      for i := 0 to |allEdges|
        invariant Matches(r, VisibleOf(view, ids[..i], asOf))
      {
        var e := allEdges[i];
        assert edges[ids[i]].Value() == view.edges[ids[i]];
        assert ids[..i + 1][..i] == ids[..i];
        if e.firstSeen <= asOf.value {
          r := r + [e];
        }
      }
      assert ids[..|allEdges|] == ids;
    }

    /** Each stored edge object is listed exactly once under its source and once under its
        target; every other object is listed nowhere. */
    lemma EdgeObjectsIndexedOnce(x: EntityId, o: EntityEdge)
      requires Valid()
      ensures multiset(Listed(adjOut, x))[o] == if o in edges.Values && o.sourceId == x then 1 else 0
      ensures multiset(Listed(adjIn, x))[o] == if o in edges.Values && o.targetId == x then 1 else 0
    {
      var k := o.edgeId;
      if o in edges.Values {
        var j :| j in edges && edges[j] == o;
        assert view.edges[j].id == j;
      }
      assert multiset(Listed(view.outgoing, x))[k] ==
             if k in Sources(view.edges) && Sources(view.edges)[k] == x then 1 else 0;
      assert multiset(Listed(view.incoming, x))[k] ==
             if k in Targets(view.edges) && Targets(view.edges)[k] == x then 1 else 0;
      CountObjects(Listed(adjOut, x), Listed(view.outgoing, x), o);
      CountObjects(Listed(adjIn, x), Listed(view.incoming, x), o);
    }

    lemma {:induction false} CountObjects(objects: seq<EntityEdge>, ids: seq<EdgeId>, o: EntityEdge)
      requires Matches(objects, ids)
      requires forall k | k in edges :: edges[k].edgeId == k
      ensures multiset(objects)[o] == if o in edges.Values then multiset(ids)[o.edgeId] else 0
    {
      if ids == [] {
      } else {
        var n := |ids| - 1;
        CountObjects(objects[..n], ids[..n], o);
        assert objects == objects[..n] + [objects[n]] && ids == ids[..n] + [ids[n]];
      }
    }

    // ----- traversals

    method GetNeighborsByHop(entityId: EntityId, asOf: Option<Time>, maxDepth: int, maxNodes: int)
      returns (hops: Hops)
      requires Valid()
      ensures hops == NeighborsByHop(view, entityId, asOf, maxDepth, maxNodes)
    {
      if entityId !in nodes {
        return Hops({}, {});
      }
      hops := CollectHops(entityId, asOf, maxDepth, maxNodes);
    }

    /** The loop of `get_neighbors_by_hop`. */
    method CollectHops(entityId: EntityId, asOf: Option<Time>, maxDepth: int, maxNodes: int)
      returns (hops: Hops)
      requires Valid()
      ensures hops == HopsOf(SearchFrom(view, entityId, asOf, maxDepth, maxNodes).depth)
    {
      hops := Hops({}, {});
      var visited := {entityId};
      var queue: seq<(EntityId, int)> := [(entityId, 0)];
      ghost var s, g := Start(entityId), view;
      StartHolds(entityId);
      while queue != [] && |visited| < maxNodes
        invariant Holds(s, visited, queue) && hops == HopsOf(s.depth)
        invariant Explore(g, asOf, maxDepth, maxNodes, s) == SearchFrom(g, entityId, asOf, maxDepth, maxNodes)
        decreases |Unseen(g, s)|, |s.queue|
      {
        StepProgress(g, asOf, maxDepth, s);
        visited, queue, hops := TurnForHops(asOf, maxDepth, visited, queue, hops, s);
        s := Step(g, asOf, maxDepth, s);
      }
    }

    /** One turn of the loop: take the queue head and, short of `maxDepth`, walk its edges. */
    method TurnForHops(
      asOf: Option<Time>, maxDepth: int, visited0: set<EntityId>, queue0: seq<(EntityId, int)>, hops0: Hops,
      ghost s: Search)
      returns (visited: set<EntityId>, queue: seq<(EntityId, int)>, hops: Hops)
      requires Valid() && queue0 != []
      requires Holds(s, visited0, queue0) && hops0 == HopsOf(s.depth)
      ensures Holds(Step(view, asOf, maxDepth, s), visited, queue)
      ensures hops == HopsOf(Step(view, asOf, maxDepth, s).depth)
    {
      PopHolds(s, visited0, queue0);
      StepCases(view, asOf, maxDepth, s);
      var (currId, currDepth) := queue0[0];
      visited, queue, hops := visited0, queue0[1..], hops0;
      if currDepth < maxDepth {
        visited, queue, hops := WalkForHops(currId, currDepth, asOf, visited, queue, hops, Taken(s));
      }
    }

    method WalkForHops(
      currId: EntityId, currDepth: int, asOf: Option<Time>, visited0: set<EntityId>,
      queue0: seq<(EntityId, int)>, hops0: Hops, ghost s: Search)
      returns (visited: set<EntityId>, queue: seq<(EntityId, int)>, hops: Hops)
      requires Valid() && currDepth >= 0
      requires Holds(s, visited0, queue0) && hops0 == HopsOf(s.depth)
      ensures Holds(Discover(s, Neighbors(view, currId, asOf), currDepth + 1), visited, queue)
      ensures hops == HopsOf(Discover(s, Neighbors(view, currId, asOf), currDepth + 1).depth)
    {
      visited, queue, hops := visited0, queue0, hops0;
      var incident := GetIncidentEdges(currId, asOf);
      ghost var ns := Neighbors(view, currId, asOf);
      ghost var u := s;
      for i := 0 to |incident|
        invariant u == Discover(s, ns[..i], currDepth + 1)
        invariant Holds(u, visited, queue) && hops == HopsOf(u.depth)
      {
        var neighbor := OtherEndOf(incident[i], currId);
        NeighborAt(currId, asOf, incident, i);
        DiscoverNext(s, ns, i, currDepth + 1);
        VisitHolds(u, visited, queue, neighbor, currDepth + 1);
        u := Visit(u, neighbor, currDepth + 1);
        if neighbor !in visited {
          visited := visited + {neighbor};
          queue := queue + [(neighbor, currDepth + 1)];
          hops := Recorded(hops, neighbor, currDepth + 1);
        }
      }
      assert ns[..|incident|] == ns;
    }

    lemma NeighborAt(x: EntityId, asOf: Option<Time>, incident: seq<EntityEdge>, i: nat)
      requires Valid() && Matches(incident, Incident(view, x, asOf)) && i < |incident|
      ensures |Neighbors(view, x, asOf)| == |incident|
      ensures Neighbors(view, x, asOf)[i] == OtherEndOf(incident[i], x)
    {
      var k := Incident(view, x, asOf)[i];
      assert edges[k].Value() == view.edges[k];
    }

    // ----- find_connected_cluster

    /** The stored objects of some ids. */
    ghost predicate AreNodes(objects: set<EntityNode>, xs: set<EntityId>)
      reads this
    {
      objects == set x | x in xs && x in nodes :: nodes[x]
    }

    ghost predicate AreEdges(objects: set<EntityEdge>, ks: set<EdgeId>)
      reads this
    {
      objects == set k | k in ks && k in edges :: edges[k]
    }

    method FindConnectedCluster(entityId: EntityId, asOf: Option<Time>, maxDepth: int, maxNodes: int)
      returns (r: ClusterAnalysis, nodesList: set<EntityNode>, edgesList: set<EntityEdge>)
      requires Valid()
      ensures var c := ClusterAround(view, entityId, asOf, maxDepth, maxNodes);
        r == Analysed(view, c) && AreNodes(nodesList, c.visited) && AreEdges(edgesList, c.edges)
    {
      hide Coherent, SearchFrom, EdgesTouching;
      if entityId !in nodes {
        return ClusterAnalysis(0, 0, 0, 0, 0, 0, 0, 0.0, 0), {}, {};
      }
      var visited, collected := CollectCluster(entityId, asOf, maxDepth, maxNodes);
      r, nodesList, edgesList := Summarise(visited, collected, ClusterAround(view, entityId, asOf, maxDepth, maxNodes));
    }

    /** The statistics of the visited ids and the collected edges. */
    method Summarise(visited: set<EntityId>, collected: map<EdgeId, EntityEdge>, ghost c: Cluster)
      returns (r: ClusterAnalysis, nodesList: set<EntityNode>, edgesList: set<EntityEdge>)
      requires NodesMirrored() && EdgesMirrored() && visited == c.visited && HoldsEdges(collected, c.edges)
      ensures r == Analysed(view, c) && AreNodes(nodesList, c.visited) && AreEdges(edgesList, c.edges)
    {
      var known := set x | x in visited && x in nodes;
      nodesList := set x | x in known :: nodes[x];
      edgesList := collected.Values;
      var merchants, accounts, devices, ips, instruments := SortByKind(known);
      var events, successes, failures := AddUp(collected);
      r := ClusterAnalysis(
        |known|, |collected|, |merchants|, |accounts|, |devices|, |ips|, |instruments|,
        FailureRate(successes, failures), events);
      KnownKinds(known, c.visited);
      assert edgesList == set k | k in c.edges && k in edges :: edges[k];
    }

    lemma KnownKinds(known: set<EntityId>, xs: set<EntityId>)
      requires NodesMirrored() && known == set x | x in xs && x in nodes
      ensures known == set x | x in xs && x in view.nodes
      ensures forall kind :: KnownOf(view, known, kind) == KnownOf(view, xs, kind)
    {
    }

    /** The search loop: the ids visited, and the edges met, keyed by edge id. */
    method CollectCluster(entityId: EntityId, asOf: Option<Time>, maxDepth: int, maxNodes: int)
      returns (visited: set<EntityId>, collected: map<EdgeId, EntityEdge>)
      requires Valid()
      ensures var s := SearchFrom(view, entityId, asOf, maxDepth, maxNodes);
        visited == s.depth.Keys && HoldsEdges(collected, EdgesTouching(view, asOf, s.expanded))
    {
      visited, collected := {entityId}, map[];
      var queue: seq<(EntityId, int)> := [(entityId, 0)];
      ghost var s, g := Start(entityId), view;
      StartHolds(entityId);
      while queue != [] && |visited| < maxNodes
        invariant Holds(s, visited, queue) && HoldsEdges(collected, EdgesTouching(g, asOf, s.expanded))
        invariant Explore(g, asOf, maxDepth, maxNodes, s) == SearchFrom(g, entityId, asOf, maxDepth, maxNodes)
        decreases |Unseen(g, s)|, |s.queue|
      {
        StepProgress(g, asOf, maxDepth, s);
        StepEdges(g, asOf, maxDepth, s);
        ghost var base := EdgesTouching(g, asOf, s.expanded);
        visited, queue, collected := TurnForCluster(asOf, maxDepth, visited, queue, collected, s, base);
        s := Step(g, asOf, maxDepth, s);
      }
    }

    /** `collected` maps exactly the ids in `ks` to the stored objects. */
    ghost predicate HoldsEdges(collected: map<EdgeId, EntityEdge>, ks: set<EdgeId>)
      reads this
    {
      collected.Keys == ks && forall k | k in ks :: k in edges && edges[k] == collected[k]
    }

    method TurnForCluster(
      asOf: Option<Time>, maxDepth: int, visited0: set<EntityId>, queue0: seq<(EntityId, int)>,
      collected0: map<EdgeId, EntityEdge>, ghost s: Search, ghost base: set<EdgeId>)
      returns (visited: set<EntityId>, queue: seq<(EntityId, int)>, collected: map<EdgeId, EntityEdge>)
      requires Valid() && queue0 != []
      requires Holds(s, visited0, queue0) && HoldsEdges(collected0, base)
      ensures Holds(Step(view, asOf, maxDepth, s), visited, queue)
      ensures HoldsEdges(
        collected, if s.depth[s.queue[0]] < maxDepth then base + AsSet(Incident(view, s.queue[0], asOf)) else base)
    {
      PopHolds(s, visited0, queue0);
      StepCases(view, asOf, maxDepth, s);
      var (currId, currDepth) := queue0[0];
      visited, queue, collected := visited0, queue0[1..], collected0;
      if currDepth < maxDepth {
        visited, queue, collected := WalkForCluster(
          currId, currDepth, asOf, visited, queue, collected, Taken(s), base);
      }
    }

    lemma CollectNext(
      collected: map<EdgeId, EntityEdge>, base: set<EdgeId>, ks: seq<EdgeId>, i: nat, edge: EntityEdge)
      requires EdgesMirrored() && Coherent(view)
      requires i < |ks| && ks[i] in edges && edges[ks[i]] == edge
      requires HoldsEdges(collected, base + AsSet(ks[..i]))
      ensures HoldsEdges(collected[edge.edgeId := edge], base + AsSet(ks[..i + 1]))
    {
      assert edges[ks[i]].Value() == view.edges[ks[i]];
      assert ks[..i + 1] == ks[..i] + [ks[i]];
      assert AsSet(ks[..i + 1]) == AsSet(ks[..i]) + {ks[i]};
    }

    method WalkForCluster(
      currId: EntityId, currDepth: int, asOf: Option<Time>, visited0: set<EntityId>,
      queue0: seq<(EntityId, int)>, collected0: map<EdgeId, EntityEdge>, ghost s: Search, ghost base: set<EdgeId>)
      returns (visited: set<EntityId>, queue: seq<(EntityId, int)>, collected: map<EdgeId, EntityEdge>)
      requires Valid() && currDepth >= 0
      requires Holds(s, visited0, queue0) && HoldsEdges(collected0, base)
      ensures Holds(Discover(s, Neighbors(view, currId, asOf), currDepth + 1), visited, queue)
      ensures HoldsEdges(collected, base + AsSet(Incident(view, currId, asOf)))
    {
      visited, queue, collected := visited0, queue0, collected0;
      var incident := GetIncidentEdges(currId, asOf);
      ghost var ks, ns := Incident(view, currId, asOf), Neighbors(view, currId, asOf);
      ghost var u := s;
      for i := 0 to |incident|
        invariant u == Discover(s, ns[..i], currDepth + 1)
        invariant Holds(u, visited, queue)
        invariant HoldsEdges(collected, base + AsSet(ks[..i]))
      {
        var edge := incident[i];
        var neighbor := OtherEndOf(edge, currId);
        NeighborAt(currId, asOf, incident, i);
        DiscoverNext(s, ns, i, currDepth + 1);
        VisitHolds(u, visited, queue, neighbor, currDepth + 1);
        u := Visit(u, neighbor, currDepth + 1);
        CollectNext(collected, base, ks, i, edge);
        collected := collected[edge.edgeId := edge];
        if neighbor !in visited {
          visited := visited + {neighbor};
          queue := queue + [(neighbor, currDepth + 1)];
        }
      }
      assert ns[..|incident|] == ns && ks[..|incident|] == ks;
    }

    /** The ids of a set of known nodes, sorted into the five counted kinds. */
    method SortByKind(known: set<EntityId>)
      returns (merchants: set<EntityId>, accounts: set<EntityId>, devices: set<EntityId>, ips: set<EntityId>,
               instruments: set<EntityId>)
      requires NodesMirrored() && known <= nodes.Keys
      ensures merchants == KnownOf(view, known, Merchant) && accounts == KnownOf(view, known, Account)
      ensures devices == KnownOf(view, known, Device) && ips == KnownOf(view, known, Ip)
      ensures instruments == KnownOf(view, known, PaymentInstrument)
    {
      merchants, accounts, devices, ips, instruments := {}, {}, {}, {}, {};
      var rest := known;
      while rest != {}
        invariant rest <= known
        decreases rest
        invariant merchants == KnownOf(view, known - rest, Merchant)
        invariant accounts == KnownOf(view, known - rest, Account)
        invariant devices == KnownOf(view, known - rest, Device)
        invariant ips == KnownOf(view, known - rest, Ip)
        invariant instruments == KnownOf(view, known - rest, PaymentInstrument)
      {
        var x :| x in rest;
        assert nodes[x].Value() == view.nodes[x];
        match nodes[x].kind {
          case Merchant => merchants := merchants + {x};
          case Account => accounts := accounts + {x};
          case Device => devices := devices + {x};
          case Ip => ips := ips + {x};
          case PaymentInstrument => instruments := instruments + {x};
          case Transaction =>
          case Order =>
        }
        rest := rest - {x};
      }
      assert known - rest == known;
    }

    /** Event, success and failure totals over the collected edges. */
    method AddUp(collected: map<EdgeId, EntityEdge>) returns (events: int, successes: int, failures: int)
      requires EdgesMirrored() && HoldsEdges(collected, collected.Keys)
      ensures events == Sum(collected.Keys, CountIn(view))
      ensures successes == Sum(collected.Keys, SuccessesIn(view))
      ensures failures == Sum(collected.Keys, FailuresIn(view))
    {
      events, successes, failures := 0, 0, 0;
      var rest := collected.Keys;
      while rest != {}
        invariant rest <= collected.Keys
        decreases rest
        invariant events == Sum(collected.Keys - rest, CountIn(view))
        invariant successes == Sum(collected.Keys - rest, SuccessesIn(view))
        invariant failures == Sum(collected.Keys - rest, FailuresIn(view))
      {
        var k :| k in rest;
        var e := collected[k];
        assert e.Value() == view.edges[k];
        SumAdd(collected.Keys - rest, CountIn(view), k);
        SumAdd(collected.Keys - rest, SuccessesIn(view), k);
        SumAdd(collected.Keys - rest, FailuresIn(view), k);
        assert collected.Keys - rest + {k} == collected.Keys - (rest - {k});
        events := events + e.occurrenceCount;
        successes := successes + e.successCount;
        failures := failures + e.failureCount;
        rest := rest - {k};
      }
      assert collected.Keys - rest == collected.Keys;
    }
  }
}
