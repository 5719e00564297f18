/** What of an assessment depends on the order in which events were delivered. */
module AssessmentOrder {
  import opened Options
  import opened GraphModel
  import opened SetSums
  import opened Traversal
  import opened EventUpdates
  import opened IngestionOrder
  import opened CrossMerchantRisk

  // ----- searches that are not cut short

  /** The search met fewer ids than it may, so only an empty queue can have ended it. */
  ghost predicate Roomy(g: Graph, r: EntityId, asOf: Option<Time>, maxDepth: int, maxNodes: int) {
    |SearchFrom(g, r, asOf, maxDepth, maxNodes).depth| < maxNodes
  }

  lemma {:induction false} RoomyEmptiesQueue(
    g: Graph, asOf: Option<Time>, maxDepth: int, maxNodes: int, s: Search)
    requires QueueLabelled(s)
    requires |Explore(g, asOf, maxDepth, maxNodes, s).depth| < maxNodes
    ensures Explore(g, asOf, maxDepth, maxNodes, s).queue == []
    decreases |Unseen(g, s)|, |s.queue|
  {
    if s.queue == [] || |s.depth| >= maxNodes {
    } else {
      StepProgress(g, asOf, maxDepth, s);
      RoomyEmptiesQueue(g, asOf, maxDepth, maxNodes, Step(g, asOf, maxDepth, s));
    }
  }

  // ----- the same edges give the same distances

  lemma SameLinks(g: Graph, h: Graph, asOf: Option<Time>, x: EntityId, y: EntityId)
    requires g.edges == h.edges
    ensures Linked(g, asOf, x, y) <==> Linked(h, asOf, x, y)
  {
  }

  lemma SameReach(g: Graph, h: Graph, asOf: Option<Time>, r: EntityId, v: EntityId, n: nat)
    requires g.edges == h.edges && Reaches(g, asOf, r, v, n)
    ensures Reaches(h, asOf, r, v, n)
  {
    hide Linked;
    var p :| Walk(g, asOf, p) && |p| == n + 1 && p[0] == r && p[n] == v;
    forall i | 0 <= i < |p| - 1 ensures Linked(h, asOf, p[i], p[i + 1]) {
      SameLinks(g, h, asOf, p[i], p[i + 1]);
    }
    assert Walk(h, asOf, p);
  }

  lemma SameDistance(g: Graph, h: Graph, asOf: Option<Time>, r: EntityId, v: EntityId, n: nat)
    requires g.edges == h.edges
    ensures AtDistance(g, asOf, r, v, n) <==> AtDistance(h, asOf, r, v, n)
  {
    hide Reaches;
    forall m: nat ensures Reaches(g, asOf, r, v, m) <==> Reaches(h, asOf, r, v, m) {
      if Reaches(g, asOf, r, v, m) { SameReach(g, h, asOf, r, v, m); }
      if Reaches(h, asOf, r, v, m) { SameReach(h, g, asOf, r, v, m); }
    }
  }

  /** A label of one search is a label of any other that was not cut short. */
  lemma LabelCarriesOver(
    g: Graph, h: Graph, r: EntityId, asOf: Option<Time>, maxDepth: int, maxNodes: int, v: EntityId)
    requires Coherent(g) && Coherent(h) && g.edges == h.edges
    requires !Truncated(g, r, asOf, maxDepth, maxNodes) && v in SearchFrom(h, r, asOf, maxDepth, maxNodes).depth
    ensures var d, e := SearchFrom(g, r, asOf, maxDepth, maxNodes).depth, SearchFrom(h, r, asOf, maxDepth, maxNodes).depth;
      v in d && d[v] == e[v]
  {
    hide Coherent, SearchFrom, AtDistance;
    var n := SearchFrom(h, r, asOf, maxDepth, maxNodes).depth[v];
    SearchIsExact(h, r, asOf, maxDepth, maxNodes, v, n);
    SameDistance(g, h, asOf, r, v, n);
    SearchIsExact(g, r, asOf, maxDepth, maxNodes, v, n);
  }

  /** With room to spare in one graph, the search of any graph with the same edges has room too
      and labels the same ids alike, however the edges are listed. */
  lemma RoomySearchesAgree(g: Graph, h: Graph, r: EntityId, asOf: Option<Time>, maxDepth: int, maxNodes: int)
    requires Coherent(g) && Coherent(h) && g.edges == h.edges && Roomy(g, r, asOf, maxDepth, maxNodes)
    ensures !Truncated(g, r, asOf, maxDepth, maxNodes) && !Truncated(h, r, asOf, maxDepth, maxNodes)
    ensures SearchFrom(g, r, asOf, maxDepth, maxNodes).depth == SearchFrom(h, r, asOf, maxDepth, maxNodes).depth
  {
    RoomyEmptiesQueue(g, asOf, maxDepth, maxNodes, Start(r));
    var d, e := SearchFrom(g, r, asOf, maxDepth, maxNodes).depth, SearchFrom(h, r, asOf, maxDepth, maxNodes).depth;
    assert !Truncated(g, r, asOf, maxDepth, maxNodes);
    forall v | v in e ensures v in d && d[v] == e[v] {
      LabelCarriesOver(g, h, r, asOf, maxDepth, maxNodes, v);
    }
    assert |e| < maxNodes by {
      assert |d| == |d.Keys| && |e| == |e.Keys| && e.Keys <= d.Keys;
      SubsetSize(e.Keys, d.Keys);
    }
    RoomyEmptiesQueue(h, asOf, maxDepth, maxNodes, Start(r));
    forall v | v in d ensures v in e {
      LabelCarriesOver(h, g, r, asOf, maxDepth, maxNodes, v);
    }
  }

  /** An emptied search has walked exactly the ids short of `maxDepth`. */
  lemma WalkedExactly(g: Graph, r: EntityId, asOf: Option<Time>, maxDepth: int, maxNodes: int)
    requires Coherent(g) && !Truncated(g, r, asOf, maxDepth, maxNodes)
    ensures var s := SearchFrom(g, r, asOf, maxDepth, maxNodes);
      s.expanded == set v | v in s.depth && s.depth[v] < maxDepth
  {
    StartExact(g, asOf, r, maxDepth);
    ExploreExact(g, asOf, r, maxDepth, maxNodes, Start(r));
    var s := SearchFrom(g, r, asOf, maxDepth, maxNodes);
    hide Explore, Labelled, Ordered, Coherent, Linked;
    assert Walked(g, asOf, maxDepth, s) && s.queue == [];
    forall v ensures v in s.expanded <==> v in s.depth && s.depth[v] < maxDepth {
    }
  }

  /** Hop sets and cluster are those of the other graph. */
  lemma RoomyTraversalsAgree(g: Graph, h: Graph, r: EntityId, asOf: Option<Time>, maxDepth: int, maxNodes: int)
    requires Coherent(g) && Coherent(h) && g.edges == h.edges && g.nodes == h.nodes
    requires Roomy(g, r, asOf, maxDepth, maxNodes)
    ensures NeighborsByHop(g, r, asOf, maxDepth, maxNodes) == NeighborsByHop(h, r, asOf, maxDepth, maxNodes)
    ensures ClusterAround(g, r, asOf, maxDepth, maxNodes) == ClusterAround(h, r, asOf, maxDepth, maxNodes)
  {
    RoomySearchesAgree(g, h, r, asOf, maxDepth, maxNodes);
    WalkedExactly(g, r, asOf, maxDepth, maxNodes);
    WalkedExactly(h, r, asOf, maxDepth, maxNodes);
    hide Coherent, SearchFrom, Truncated;
    var s, t := SearchFrom(g, r, asOf, maxDepth, maxNodes), SearchFrom(h, r, asOf, maxDepth, maxNodes);
    assert s.expanded == t.expanded;
    SameTouching(g, h, asOf, s.expanded);
  }

  lemma SameTouching(g: Graph, h: Graph, asOf: Option<Time>, xs: set<EntityId>)
    requires g.edges == h.edges
    ensures EdgesTouching(g, asOf, xs) == EdgesTouching(h, asOf, xs)
  {
  }

  // ----- incident edges in another order

  lemma {:induction false} VisibleCount(g: Graph, ks: seq<EdgeId>, asOf: Option<Time>, k: EdgeId)
    ensures multiset(VisibleOf(g, ks, asOf))[k] == if Shown(g, k, asOf) then multiset(ks)[k] else 0
  {
    if ks == [] {
    } else {
      var n := |ks| - 1;
      VisibleCount(g, ks[..n], asOf, k);
      assert ks == ks[..n] + [ks[n]];
    }
  }

  lemma SameIncident(g: Graph, h: Graph, x: EntityId, asOf: Option<Time>)
    requires SameGraph(g, h)
    ensures multiset(Incident(g, x, asOf)) == multiset(Incident(h, x, asOf))
  {
    forall k ensures multiset(Incident(g, x, asOf))[k] == multiset(Incident(h, x, asOf))[k] {
      VisibleCount(g, Touching(g, x), asOf, k);
      VisibleCount(h, Touching(h, x), asOf, k);
      assert multiset(Touching(g, x)) == multiset(Touching(h, x));
    }
  }

  lemma TallyStep(f: EdgeId -> int, ks: seq<EdgeId>, k: EdgeId)
    ensures Tally(f, ks + [k]) == Tally(f, ks) + f(k)
  {
    assert (ks + [k])[..|ks|] == ks;
  }

  lemma {:induction false} TallyRemove(f: EdgeId -> int, ks: seq<EdgeId>, i: nat)
    requires i < |ks|
    ensures Tally(f, ks) == Tally(f, ks[..i] + ks[i + 1..]) + f(ks[i])
    decreases |ks|
  {
    hide Tally;
    var n := |ks| - 1;
    var init := ks[..n];
    assert ks == init + [ks[n]];
    TallyStep(f, init, ks[n]);
    if i == n {
      assert ks[..i] + ks[i + 1..] == init;
    } else {
      TallyRemove(f, init, i);
      assert ks[..i] + ks[i + 1..] == (init[..i] + init[i + 1..]) + [ks[n]];
      TallyStep(f, init[..i] + init[i + 1..], ks[n]);
    }
  }

  lemma LastElsewhere(ks: seq<EdgeId>, ls: seq<EdgeId>) returns (i: nat)
    requires ks != [] && multiset(ks) == multiset(ls)
    ensures i < |ls| && ls[i] == ks[|ks| - 1]
    ensures multiset(ks[..|ks| - 1]) == multiset(ls[..i] + ls[i + 1..])
  {
    var n := |ks| - 1;
    var k := ks[n];
    assert ks == ks[..n] + [k];
    assert k in multiset(ls);
    i :| 0 <= i < |ls| && ls[i] == k;
    assert ls == ls[..i] + [k] + ls[i + 1..];
    assert multiset(ls[..i] + ls[i + 1..]) == multiset(ls) - multiset{k};
    assert multiset(ks[..n]) == multiset(ks) - multiset{k};
  }

  /** A tally does not depend on the order. */
  lemma {:induction false} TallyPermuted(f: EdgeId -> int, ks: seq<EdgeId>, ls: seq<EdgeId>)
    requires multiset(ks) == multiset(ls)
    ensures Tally(f, ks) == Tally(f, ls)
  {
    if ks == [] {
      assert |multiset(ls)| == 0;
    } else {
      var i := LastElsewhere(ks, ls);
      TallyPermuted(f, ks[..|ks| - 1], ls[..i] + ls[i + 1..]);
      TallyRemove(f, ls, i);
    }
  }

  lemma {:induction false} TallySame(f: EdgeId -> int, h: EdgeId -> int, ks: seq<EdgeId>)
    requires forall k :: f(k) == h(k)
    ensures Tally(f, ks) == Tally(h, ks)
  {
    if ks == [] {
    } else {
      TallySame(f, h, ks[..|ks| - 1]);
    }
  }

  lemma SameTallies(g: Graph, h: Graph, x: EntityId, asOf: Option<Time>)
    requires SameGraph(g, h)
    ensures Tally(SuccessesIn(g), Incident(g, x, asOf)) == Tally(SuccessesIn(h), Incident(h, x, asOf))
    ensures Tally(FailuresIn(g), Incident(g, x, asOf)) == Tally(FailuresIn(h), Incident(h, x, asOf))
  {
    SameIncident(g, h, x, asOf);
    hide Incident;
    TallyPermuted(SuccessesIn(g), Incident(g, x, asOf), Incident(h, x, asOf));
    TallyPermuted(FailuresIn(g), Incident(g, x, asOf), Incident(h, x, asOf));
    TallySame(SuccessesIn(g), SuccessesIn(h), Incident(h, x, asOf));
    TallySame(FailuresIn(g), FailuresIn(h), Incident(h, x, asOf));
  }

  lemma SameSeen(g: Graph, h: Graph, x: EntityId, asOf: Option<Time>, kind: EntityKind)
    requires SameGraph(g, h) && Coherent(g) && Coherent(h)
    ensures Seen(g, x, asOf, kind) == Seen(h, x, asOf, kind)
  {
    hide Coherent, Neighbors, Linked;
    forall v ensures v in Neighbors(g, x, asOf) <==> v in Neighbors(h, x, asOf) {
      NeighborsAreLinked(g, x, v, asOf);
      NeighborsAreLinked(h, x, v, asOf);
      SameLinks(g, h, asOf, x, v);
    }
  }

  lemma SamePropagation(g: Graph, h: Graph, x: EntityId, asOf: Option<Time>)
    requires g.nodes == h.nodes
    requires NeighborsByHop(g, x, asOf, 2, MAX_NODES) == NeighborsByHop(h, x, asOf, 2, MAX_NODES)
    ensures PropagatedRisk(g, x, asOf) == PropagatedRisk(h, x, asOf)
  {
    hide NeighborsByHop;
    var hops := NeighborsByHop(g, x, asOf, 2, MAX_NODES);
    SumSame(hops.one, OneHopShare(g, asOf), OneHopShare(h, asOf));
    SumSame(hops.two, TwoHopShare(g, asOf), TwoHopShare(h, asOf));
  }

  lemma SameClusterSums(g: Graph, h: Graph, c: Cluster)
    requires g.edges == h.edges && g.nodes == h.nodes
    ensures Sum(c.edges, SuccessesIn(g)) == Sum(c.edges, SuccessesIn(h))
    ensures Sum(c.edges, FailuresIn(g)) == Sum(c.edges, FailuresIn(h))
    ensures KnownIn(g, c.visited) == KnownIn(h, c.visited)
  {
    SumSame(c.edges, SuccessesIn(g), SuccessesIn(h));
    SumSame(c.edges, FailuresIn(g), FailuresIn(h));
  }

  /** Everything an assessment reads is the same in graphs that differ only in the order of
      their lists, for every entity whose search has room. */
  lemma SameReading(g: Graph, h: Graph, x: EntityId, asOf: Option<Time>)
    requires SameGraph(g, h) && Coherent(g) && Coherent(h) && Roomy(g, x, asOf, 2, MAX_NODES)
    requires x in g.nodes
    ensures x in h.nodes && ReadingOf(g, x, asOf) == ReadingOf(h, x, asOf)
  {
    RoomyTraversalsAgree(g, h, x, asOf, 2, MAX_NODES);
    SamePropagation(g, h, x, asOf);
    SameTallies(g, h, x, asOf);
    SameSeen(g, h, x, asOf, Merchant);
    SameSeen(g, h, x, asOf, Account);
    SameSeen(g, h, x, asOf, Device);
    SameClusterSums(g, h, ClusterAround(g, x, asOf, 2, MAX_NODES));
    assert g.nodes == h.nodes;
    hide Seen, Tally, Incident, ClusterAround, PropagatedRisk, Sum, SuccessesIn, FailuresIn, NeighborsByHop, Roomy,
      Coherent, PriorRule, KnownIn, SameGraph;
  }

  lemma NoScore(g: Graph, x: EntityId, asOf: Option<Time>, sigma: real -> real)
    requires x !in g.nodes
    ensures AssessedScore(g, x, asOf, sigma) == 0
  {
  }

  lemma SameNodeAsOf(g: Graph, h: Graph, x: EntityId, asOf: Option<Time>)
    requires SameGraph(g, h)
    ensures g.nodes == h.nodes && NodeAsOf(g, x, asOf) == NodeAsOf(h, x, asOf)
  {
  }

  /** And so is its score. */
  lemma SameScore(g: Graph, h: Graph, x: EntityId, asOf: Option<Time>, sigma: real -> real)
    requires SameGraph(g, h) && Coherent(g) && Coherent(h) && Roomy(g, x, asOf, 2, MAX_NODES)
    ensures AssessedScore(g, x, asOf, sigma) == AssessedScore(h, x, asOf, sigma)
  {
    hide *;
    SameNodeAsOf(g, h, x, asOf);
    if x in g.nodes {
      SameReading(g, h, x, asOf);
      ScoreOfReading(g, x, asOf, sigma);
      ScoreOfReading(h, x, asOf, sigma);
    } else {
      NoScore(g, x, asOf, sigma);
      NoScore(h, x, asOf, sigma);
    }
  }

  /** End to end, on any coherent store, with the base scores and outcomes other writers put
      there: as long as its search has room, the assessment of an entity depends only on which
      events were delivered, not on how often or in which order. */
  lemma AssessmentDependsOnlyOnEvents(
    s: Store, a: seq<Event>, b: seq<Event>, x: EntityId, asOf: Option<Time>, sigma: real -> real)
    requires Coherent(s.graph) && EventSet(a) == EventSet(b) && IdsConsistent(NewTo(s, EventSet(a)))
    requires FaithfulBeyond(s.graph.edges.Keys, NewTo(s, EventSet(a)))
    requires Roomy(Continued(s, a).graph, x, asOf, 2, MAX_NODES)
    ensures var g, h := Continued(s, a).graph, Continued(s, b).graph;
      && (x in g.nodes ==> x in h.nodes && ReadingOf(g, x, asOf) == ReadingOf(h, x, asOf))
      && AssessedScore(g, x, asOf, sigma) == AssessedScore(h, x, asOf, sigma)
  {
    hide *;
    SameEventsSameGraph(s, a, b);
    if x in Continued(s, a).graph.nodes {
      SameReading(Continued(s, a).graph, Continued(s, b).graph, x, asOf);
    }
    SameScore(Continued(s, a).graph, Continued(s, b).graph, x, asOf, sigma);
  }
}
