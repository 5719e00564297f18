/** No hindsight: what a run of updates dated after a cut can and cannot change about the
    graph seen at that cut. */
module TemporalCut {
  import opened Options
  import opened GraphModel
  import opened GraphLedger
  import opened Traversal

  function FirstOf(u: Update): Time {
    match u
    case NodeUpdate(n) => n.first
    case EdgeUpdate(e) => e.first
  }

  ghost predicate AllAfter(us: seq<Update>, cut: Time) {
    forall i | 0 <= i < |us| :: FirstOf(us[i]) > cut
  }

  // ----- one late update

  lemma {:induction false} VisibleAppend(g: Graph, a: seq<EdgeId>, b: seq<EdgeId>, asOf: Option<Time>)
    ensures VisibleOf(g, a + b, asOf) == VisibleOf(g, a, asOf) + VisibleOf(g, b, asOf)
    decreases |b|
  {
    if b == [] {
      assert a + b == a;
    } else {
      var b' := b[..|b| - 1];
      assert (a + b)[..|a + b| - 1] == a + b';
      VisibleAppend(g, a, b', asOf);
    }
  }

  lemma {:induction false} VisibleSame(g: Graph, h: Graph, ks: seq<EdgeId>, asOf: Option<Time>)
    requires forall i | 0 <= i < |ks| :: Shown(g, ks[i], asOf) == Shown(h, ks[i], asOf)
    ensures VisibleOf(g, ks, asOf) == VisibleOf(h, ks, asOf)
  {
    if ks == [] {
    } else {
      VisibleSame(g, h, ks[..|ks| - 1], asOf);
      assert Shown(g, ks[|ks| - 1], asOf) == Shown(h, ks[|ks| - 1], asOf);
    }
  }

  /** One index list, before and after: at most a hidden edge was appended. */
  ghost predicate HiddenAppend(h: Graph, a: seq<EdgeId>, b: seq<EdgeId>, e: EdgeId, asOf: Option<Time>) {
    b == a || (b == a + [e] && !Shown(h, e, asOf))
  }

  lemma ListSame(g: Graph, h: Graph, a: seq<EdgeId>, b: seq<EdgeId>, e: EdgeId, asOf: Option<Time>)
    requires forall i | 0 <= i < |a| :: Shown(g, a[i], asOf) == Shown(h, a[i], asOf)
    requires HiddenAppend(h, a, b, e, asOf)
    ensures VisibleOf(h, b, asOf) == VisibleOf(g, a, asOf)
  {
    VisibleSame(g, h, a, asOf);
    if b != a {
      assert b[..|b| - 1] == a;
    }
  }

  lemma LateEdgeKeepsVisibility(g: Graph, e: EdgeVal, cut: Time, x: EntityId)
    requires e.first > cut
    ensures var h := AddEdge(g, e);
      && (forall k :: Shown(g, k, Some(cut)) == Shown(h, k, Some(cut)))
      && HiddenAppend(h, Listed(g.outgoing, x), Listed(h.outgoing, x), e.id, Some(cut))
      && HiddenAppend(h, Listed(g.incoming, x), Listed(h.incoming, x), e.id, Some(cut))
  {
  }

  lemma LateEdgeKeepsIncident(g: Graph, e: EdgeVal, cut: Time, x: EntityId)
    requires e.first > cut
    ensures Incident(AddEdge(g, e), x, Some(cut)) == Incident(g, x, Some(cut))
  {
    var h, asOf := AddEdge(g, e), Some(cut);
    LateEdgeKeepsVisibility(g, e, cut, x);
    ListSame(g, h, Listed(g.outgoing, x), Listed(h.outgoing, x), e.id, asOf);
    ListSame(g, h, Listed(g.incoming, x), Listed(h.incoming, x), e.id, asOf);
    VisibleAppend(g, Listed(g.outgoing, x), Listed(g.incoming, x), asOf);
    VisibleAppend(h, Listed(h.outgoing, x), Listed(h.incoming, x), asOf);
  }

  lemma LateUpdateKeepsCut(g: Graph, u: Update, cut: Time)
    requires FirstOf(u) > cut
    ensures SameAt(g, Apply(g, u), Some(cut))
  {
    if u.EdgeUpdate? {
      forall x ensures Incident(g, x, Some(cut)) == Incident(Apply(g, u), x, Some(cut)) {
        LateEdgeKeepsIncident(g, u.edge, cut, x);
      }
    } else {
      forall x ensures Incident(g, x, Some(cut)) == Incident(Apply(g, u), x, Some(cut)) {
        VisibleSame(g, Apply(g, u), Touching(g, x), Some(cut));
      }
    }
  }

  // ----- late runs

  lemma {:induction false} LateRunKeepsCut(g: Graph, us: seq<Update>, cut: Time)
    requires AllAfter(us, cut)
    ensures SameAt(g, ApplyAll(g, us), Some(cut))
    ensures g.nodes.Keys <= ApplyAll(g, us).nodes.Keys
  {
    if us == [] {
    } else {
      var before, u := us[..|us| - 1], us[|us| - 1];
      LateRunKeepsCut(g, before, cut);
      LateUpdateKeepsCut(ApplyAll(g, before), u, cut);
    }
  }

  /** Temporal non-interference: after any run of later updates, incident edges are listed
      identically and both traversals give the same answer for every root already known,
      truncation included. */
  lemma NoHindsight(g: Graph, us: seq<Update>, cut: Time, r: EntityId, maxDepth: int, maxNodes: int)
    requires AllAfter(us, cut)
    ensures forall x :: Incident(ApplyAll(g, us), x, Some(cut)) == Incident(g, x, Some(cut))
    ensures r in g.nodes ==>
              NeighborsByHop(ApplyAll(g, us), r, Some(cut), maxDepth, maxNodes)
              == NeighborsByHop(g, r, Some(cut), maxDepth, maxNodes)
    ensures r in g.nodes ==>
              ClusterAround(ApplyAll(g, us), r, Some(cut), maxDepth, maxNodes)
              == ClusterAround(g, r, Some(cut), maxDepth, maxNodes)
  {
    LateRunKeepsCut(g, us, cut);
    SameSearch(g, ApplyAll(g, us), Some(cut), maxDepth, maxNodes, Start(r));
    var xs := SearchFrom(g, r, Some(cut), maxDepth, maxNodes).expanded;
    forall k ensures k in EdgesTouching(g, Some(cut), xs) <==> k in EdgesTouching(ApplyAll(g, us), Some(cut), xs) {
      assert Shown(g, k, Some(cut)) == Shown(ApplyAll(g, us), k, Some(cut));
    }
  }

  // ----- roots that were not yet known

  /** Every visible edge at `r` is a self-loop. */
  ghost predicate Isolated(g: Graph, asOf: Option<Time>, r: EntityId) {
    forall y | Linked(g, asOf, r, y) :: y == r
  }

  lemma {:induction false} IsolatedReachesOnlyItself(
    g: Graph, asOf: Option<Time>, r: EntityId, v: EntityId, n: nat)
    requires Isolated(g, asOf, r) && Reaches(g, asOf, r, v, n)
    ensures v == r
    decreases n
  {
    if n == 0 {
      ReachesOnlyStart(g, asOf, r, v);
    } else {
      var u := ReachesBack(g, asOf, r, v, n - 1);
      IsolatedReachesOnlyItself(g, asOf, r, u, n - 1);
    }
  }

  /** When the hop search from `r` reports nothing at all. */
  lemma EmptyHops(g: Graph, r: EntityId, asOf: Option<Time>, maxDepth: int, maxNodes: int)
    requires Coherent(g) && r in g.nodes
    ensures NeighborsByHop(g, r, asOf, maxDepth, maxNodes) == Hops({}, {}) <==>
            maxDepth < 1 || maxNodes < 2 || Isolated(g, asOf, r)
  {
    var h := NeighborsByHop(g, r, asOf, maxDepth, maxNodes);
    if maxDepth >= 1 && maxNodes >= 2 {
      if Isolated(g, asOf, r) {
        forall v ensures v !in h.one && v !in h.two {
          IsolatedHasNoDistance(g, r, asOf, v, 1);
          IsolatedHasNoDistance(g, r, asOf, v, 2);
          HopsAreExact(g, r, asOf, maxDepth, maxNodes, 1, v);
          HopsAreExact(g, r, asOf, maxDepth, maxNodes, 2, v);
        }
        assert h.one == {} && h.two == {};
      } else {
        var y :| Linked(g, asOf, r, y) && y != r;
        LinkedIsHopOne(g, r, asOf, maxDepth, maxNodes, y);
      }
    } else if maxDepth < 1 {
      forall v ensures v !in h.one && v !in h.two {
        HopsAreExact(g, r, asOf, maxDepth, maxNodes, 1, v);
        HopsAreExact(g, r, asOf, maxDepth, maxNodes, 2, v);
      }
      assert h.one == {} && h.two == {};
    } else {
      assert SearchFrom(g, r, asOf, maxDepth, maxNodes) == Start(r);
    }
  }

  lemma IsolatedHasNoDistance(g: Graph, r: EntityId, asOf: Option<Time>, v: EntityId, n: nat)
    requires Isolated(g, asOf, r) && n > 0
    ensures !AtDistance(g, asOf, r, v, n)
  {
    if Reaches(g, asOf, r, v, n) {
      IsolatedReachesOnlyItself(g, asOf, r, v, n);
      ReachesStart(g, asOf, r);
    }
  }

  lemma SameIsolation(g: Graph, h: Graph, cut: Time, r: EntityId)
    requires Coherent(g) && Coherent(h) && SameAt(g, h, Some(cut))
    ensures Isolated(g, Some(cut), r) <==> Isolated(h, Some(cut), r)
  {
    SameNeighbors(g, h, Some(cut), r);
    forall y ensures Linked(g, Some(cut), r, y) <==> Linked(h, Some(cut), r, y) {
      NeighborsAreLinked(g, r, y, Some(cut));
      NeighborsAreLinked(h, r, y, Some(cut));
    }
  }

  /** The guard of the traversal looks the root up without the time cut. So a root first
      added after the cut gets a non-empty answer exactly when it already had a visible
      edge to another id. */
  lemma HindsightExactlyForLateRoots(
    g: Graph, us: seq<Update>, cut: Time, r: EntityId, maxDepth: int, maxNodes: int)
    requires Coherent(g) && AllAfter(us, cut)
    ensures NeighborsByHop(ApplyAll(g, us), r, Some(cut), maxDepth, maxNodes)
            == NeighborsByHop(g, r, Some(cut), maxDepth, maxNodes)
            <==>
            (r in g.nodes || r !in ApplyAll(g, us).nodes
             || maxDepth < 1 || maxNodes < 2 || Isolated(g, Some(cut), r))
  {
    var h := ApplyAll(g, us);
    NoHindsight(g, us, cut, r, maxDepth, maxNodes);
    LateRunKeepsCut(g, us, cut);
    RunKeepsCoherent(g, us);
    if r !in g.nodes && r in h.nodes {
      EmptyHops(h, r, Some(cut), maxDepth, maxNodes);
      SameIsolation(g, h, cut, r);
    }
  }

  /** Such a root: an edge written at 0 before either of its nodes, and the node at 20. Asked
      about moment 10, the search answers nothing before the node is added and something after. */
  lemma HindsightHappens()
    ensures var g := AddEdge(EMPTY, EdgeVal(EdgeId("e"), EntityId("a"), EntityId("bb"), 0, 0, 1, 0, 0));
      var us := [NodeUpdate(NodeVal(EntityId("a"), Device, 20, 20, 0.0, 1))];
      && Coherent(g) && AllAfter(us, 10)
      && NeighborsByHop(ApplyAll(g, us), EntityId("a"), Some(10), 2, 200)
         != NeighborsByHop(g, EntityId("a"), Some(10), 2, 200)
  {
    hide NeighborsByHop, Isolated;
    var g := AddEdge(EMPTY, EdgeVal(EdgeId("e"), EntityId("a"), EntityId("bb"), 0, 0, 1, 0, 0));
    var us := [NodeUpdate(NodeVal(EntityId("a"), Device, 20, 20, 0.0, 1))];
    AddEdgeKeepsCoherent(EMPTY, g.edges[EdgeId("e")]);
    assert us[..0] == [];
    assert EntityId("a") !in g.nodes && EntityId("a") in ApplyAll(g, us).nodes;
    NotIsolated(g);
    HindsightExactlyForLateRoots(g, us, 10, EntityId("a"), 2, 200);
  }

  lemma NotIsolated(g: Graph)
    requires EdgeId("e") in g.edges && g.edges[EdgeId("e")].first == 0
    requires g.edges[EdgeId("e")].source == EntityId("a") && g.edges[EdgeId("e")].target == EntityId("bb")
    ensures !Isolated(g, Some(10), EntityId("a"))
  {
    assert |"a"| != |"bb"|;
    assert Joins(g.edges[EdgeId("e")], EntityId("a"), EntityId("bb"));
    assert Linked(g, Some(10), EntityId("a"), EntityId("bb"));
  }

  // ----- what late updates do change

  /** An edge visible at the cut keeps its identity, its ends and its first sighting, but
      each counter grows by exactly the late updates merged into it. */
  lemma {:induction false} LateCountsLeak(g: Graph, us: seq<Update>, cut: Time, k: EdgeId)
    requires k in g.edges && g.edges[k].first <= cut && AllAfter(us, cut)
    ensures k in ApplyAll(g, us).edges
    ensures var was, now, late := g.edges[k], ApplyAll(g, us).edges[k], EdgeUpdatesOf(us, k);
      && now.id == was.id && now.source == was.source && now.target == was.target && now.first == was.first
      && now.count == was.count + Total(Map(EdgeCount, late))
      && now.successes == was.successes + Total(Map(EdgeSuccesses, late))
      && now.failures == was.failures + Total(Map(EdgeFailures, late))
  {
    if us == [] {
      assert Map(EdgeCount, []) == [] && Map(EdgeSuccesses, []) == [] && Map(EdgeFailures, []) == [];
    } else {
      var before, u := us[..|us| - 1], us[|us| - 1];
      LateCountsLeak(g, before, cut, k);
      if u.EdgeUpdate? && u.edge.id == k {
        var es := EdgeUpdatesOf(before, k);
        MapAppend(EdgeCount, es, u.edge);
        TotalAppend(Map(EdgeCount, es), u.edge.count);
        MapAppend(EdgeSuccesses, es, u.edge);
        TotalAppend(Map(EdgeSuccesses, es), u.edge.successes);
        MapAppend(EdgeFailures, es, u.edge);
        TotalAppend(Map(EdgeFailures, es), u.edge.failures);
      }
    }
  }

  /** `get_node` at the cut answers for the same ids before and after a late run. */
  lemma {:induction false} NodePresenceKept(g: Graph, us: seq<Update>, cut: Time, x: EntityId)
    requires AllAfter(us, cut)
    ensures NodeAsOf(ApplyAll(g, us), x, Some(cut)).Some? <==> NodeAsOf(g, x, Some(cut)).Some?
    ensures NodeAsOf(g, x, Some(cut)).Some? ==>
              NodeAsOf(ApplyAll(g, us), x, Some(cut)).value.kind == NodeAsOf(g, x, Some(cut)).value.kind
              && NodeAsOf(ApplyAll(g, us), x, Some(cut)).value.first == NodeAsOf(g, x, Some(cut)).value.first
  {
    if us == [] {
    } else {
      NodePresenceKept(g, us[..|us| - 1], cut, x);
    }
  }
}
