/** How many ids a bounded search reports: `max_nodes` is tested only between expansions. */
module SearchSize {
  import opened Options
  import opened GraphModel
  import opened SetSums
  import opened Traversal

  /** The state before the last turn of the loop, or `s` itself when the loop makes none. */
  function LastTurn(g: Graph, asOf: Option<Time>, maxDepth: int, maxNodes: int, s: Search): Search
    requires QueueLabelled(s)
    decreases |Unseen(g, s)|, |s.queue|
  {
    if s.queue == [] || |s.depth| >= maxNodes then s
    else
      StepProgress(g, asOf, maxDepth, s);
      var t := Step(g, asOf, maxDepth, s);
      if t.queue == [] || |t.depth| >= maxNodes then s else LastTurn(g, asOf, maxDepth, maxNodes, t)
  }

  /** The unseen ids one turn of the loop finds. */
  function NewIds(g: Graph, asOf: Option<Time>, maxDepth: int, s: Search): set<EntityId>
    requires QueueLabelled(s)
  {
    if s.queue == [] || s.depth[s.queue[0]] >= maxDepth then {}
    else (set v | v in Neighbors(g, s.queue[0], asOf)) - s.depth.Keys
  }

  lemma StepIds(g: Graph, asOf: Option<Time>, maxDepth: int, s: Search)
    requires QueueLabelled(s) && s.queue != [] && s.depth[s.queue[0]] < maxDepth
    ensures Step(g, asOf, maxDepth, s).depth.Keys == s.depth.Keys + NewIds(g, asOf, maxDepth, s)
  {
    var ns := Neighbors(g, s.queue[0], asOf);
    hide Discover, Neighbors, QueueLabelled;
    var t := Step(g, asOf, maxDepth, s);
    var found := ExpandDiscovers(g, asOf, s);
    forall v ensures v in t.depth.Keys <==> v in s.depth.Keys || v in ns {
    }
  }

  lemma TurnSize(g: Graph, asOf: Option<Time>, maxDepth: int, s: Search)
    requires QueueLabelled(s) && s.queue != []
    ensures |Step(g, asOf, maxDepth, s).depth| == |s.depth| + |NewIds(g, asOf, maxDepth, s)|
  {
    assert s.queue[0] in s.depth;
    var t := Step(g, asOf, maxDepth, s);
    assert |t.depth| == |t.depth.Keys| && |s.depth| == |s.depth.Keys|;
    if s.depth[s.queue[0]] < maxDepth {
      hide Step;
      StepIds(g, asOf, maxDepth, s);
    }
  }

  /** The last turn starts below the bound, ends the search, and adds what it finds. */
  lemma {:induction false} LastTurnEnds(g: Graph, asOf: Option<Time>, maxDepth: int, maxNodes: int, s: Search)
    requires QueueLabelled(s) && s.queue != [] && |s.depth| < maxNodes
    ensures var u := LastTurn(g, asOf, maxDepth, maxNodes, s);
      && QueueLabelled(u) && u.queue != [] && |u.depth| < maxNodes
      && Explore(g, asOf, maxDepth, maxNodes, s) == Step(g, asOf, maxDepth, u)
    decreases |Unseen(g, s)|, |s.queue|
  {
    hide Step, Closer;
    StepProgressHere(g, asOf, maxDepth, s);
    var t := Step(g, asOf, maxDepth, s);
    if t.queue == [] || |t.depth| >= maxNodes {
    } else {
      LastTurnEnds(g, asOf, maxDepth, maxNodes, t);
    }
  }

  lemma StepProgressHere(g: Graph, asOf: Option<Time>, maxDepth: int, s: Search)
    requires QueueLabelled(s) && s.queue != []
    ensures var t := Step(g, asOf, maxDepth, s);
      && QueueLabelled(t)
      && (|Unseen(g, t)| < |Unseen(g, s)| || (|Unseen(g, t)| == |Unseen(g, s)| && |t.queue| < |s.queue|))
  {
    StepProgress(g, asOf, maxDepth, s);
  }

  /** The size of every search: below 2, the bound stops it at its root; from 2 on it ends with
      what the last turn found on top of fewer than `maxNodes` ids. So it passes the bound
      exactly when that turn finds more ids than were left. */
  lemma SizeExactly(g: Graph, r: EntityId, asOf: Option<Time>, maxDepth: int, maxNodes: int)
    ensures var size := |SearchFrom(g, r, asOf, maxDepth, maxNodes).depth|;
      var u := LastTurn(g, asOf, maxDepth, maxNodes, Start(r));
      && (maxNodes < 2 ==> size == 1)
      && (maxNodes >= 2 ==>
            && QueueLabelled(u) && u.queue != [] && |u.depth| < maxNodes
            && SearchFrom(g, r, asOf, maxDepth, maxNodes) == Step(g, asOf, maxDepth, u)
            && size == |u.depth| + |NewIds(g, asOf, maxDepth, u)|
            && (size > maxNodes <==> |NewIds(g, asOf, maxDepth, u)| > maxNodes - |u.depth|)
            && size <= maxNodes - 1 + |NewIds(g, asOf, maxDepth, u)|)
  {
    var s := Start(r);
    assert |s.depth| == 1 by { assert s.depth.Keys == {r}; }
    if maxNodes >= 2 {
      LastTurnEnds(g, asOf, maxDepth, maxNodes, s);
      TurnSize(g, asOf, maxDepth, LastTurn(g, asOf, maxDepth, maxNodes, s));
    }
  }

  // ----- a search that passes its bound

  function Spoke(name: string): EdgeVal {
    EdgeVal(EdgeId(name), EntityId("txn_a"), EntityId(name), 0, 0, 1, 0, 0)
  }

  const Hub := NodeVal(EntityId("txn_a"), Transaction, 0, 0, 0.0, 1)

  /** One transaction with a merchant, a device and an address. */
  function Star(): Graph {
    AddEdge(AddEdge(AddEdge(AddNode(EMPTY, Hub), Spoke("m")), Spoke("d")), Spoke("i"))
  }

  lemma StarIsCoherent()
    ensures Coherent(Star())
  {
    hide Coherent;
    var a := AddNode(EMPTY, Hub);
    assert Coherent(a) by { EmptyIsCoherent(); ApplyKeepsCoherent(EMPTY, NodeUpdate(Hub)); }
    hide AddEdge, AddNode;
    AddEdgeKeepsCoherent(a, Spoke("m"));
    AddEdgeKeepsCoherent(AddEdge(a, Spoke("m")), Spoke("d"));
    AddEdgeKeepsCoherent(AddEdge(AddEdge(a, Spoke("m")), Spoke("d")), Spoke("i"));
  }

  lemma EmptyIsCoherent()
    ensures Coherent(EMPTY)
  {
  }

  lemma StarHasSpokes(name: string)
    requires name == "m" || name == "d" || name == "i"
    ensures Coherent(Star()) && EntityId("txn_a") in Star().nodes
    ensures EdgeId(name) in Star().edges && Star().edges[EdgeId(name)] == Spoke(name)
  {
    hide Coherent;
    StarIsCoherent();
    assert "m"[0] != "d"[0] && "m"[0] != "i"[0] && "d"[0] != "i"[0];
  }

  /** Asked for at most 2 ids around the transaction, the search reports 3 neighbours. */
  lemma SearchPassesItsBound()
    ensures |NeighborsByHop(Star(), EntityId("txn_a"), None, 2, 2).one| > 2
  {
    hide *;
    var hop := NeighborsByHop(Star(), EntityId("txn_a"), None, 2, 2).one;
    SpokeIsMet("m");
    SpokeIsMet("d");
    SpokeIsMet("i");
    var three := {EntityId("m"), EntityId("d"), EntityId("i")};
    assert "m"[0] != "d"[0] && "m"[0] != "i"[0] && "d"[0] != "i"[0];
    assert |three| == 3;
    assert three <= hop;
    SubsetSize(three, hop);
  }

  lemma SpokeIsMet(name: string)
    requires name == "m" || name == "d" || name == "i"
    ensures EntityId(name) in NeighborsByHop(Star(), EntityId("txn_a"), None, 2, 2).one
  {
    hide Star, NeighborsByHop, Coherent, AtDistance;
    StarHasSpokes(name);
    var g, r, y := Star(), EntityId("txn_a"), EntityId(name);
    assert Joins(g.edges[EdgeId(name)], r, y);
    assert Linked(g, None, r, y);
    assert |name| != |r.text|;
    LinkedIsHopOne(g, r, None, 2, 2, y);
  }
}
