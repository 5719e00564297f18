/** What a graph holds after any run of updates, read off the run itself: envelopes are
    minima and maxima, counters are sums, and the first update fixes the identity. */
module GraphLedger {
  import opened Options
  import opened GraphModel

  function NodeUpdatesOf(us: seq<Update>, x: EntityId): seq<NodeVal> {
    if us == [] then []
    else
      var before, u := NodeUpdatesOf(us[..|us| - 1], x), us[|us| - 1];
      if u.NodeUpdate? && u.node.id == x then before + [u.node] else before
  }

  function EdgeUpdatesOf(us: seq<Update>, k: EdgeId): seq<EdgeVal> {
    if us == [] then []
    else
      var before, u := EdgeUpdatesOf(us[..|us| - 1], k), us[|us| - 1];
      if u.EdgeUpdate? && u.edge.id == k then before + [u.edge] else before
  }

  function Total(xs: seq<int>): int {
    if xs == [] then 0 else Total(xs[..|xs| - 1]) + xs[|xs| - 1]
  }

  ghost predicate IsLeast(m: int, xs: seq<int>) {
    m in xs && forall x | x in xs :: m <= x
  }

  ghost predicate IsGreatest(m: int, xs: seq<int>) {
    m in xs && forall x | x in xs :: x <= m
  }

  ghost predicate IsGreatestReal(m: real, xs: seq<real>) {
    m in xs && forall x | x in xs :: x <= m
  }

  function Map<A, B>(f: A -> B, xs: seq<A>): (r: seq<B>)
    ensures |r| == |xs| && forall i | 0 <= i < |xs| :: r[i] == f(xs[i])
  {
    seq(|xs|, i requires 0 <= i < |xs| => f(xs[i]))
  }

  lemma MapAppend<A, B>(f: A -> B, xs: seq<A>, x: A)
    ensures Map(f, xs + [x]) == Map(f, xs) + [f(x)]
  {
  }

  lemma TotalAppend(xs: seq<int>, x: int)
    ensures Total(xs + [x]) == Total(xs) + x
  {
    assert (xs + [x])[..|xs|] == xs;
  }

  const EdgeFirst := (e: EdgeVal) => e.first
  const EdgeLast := (e: EdgeVal) => e.last
  const EdgeCount := (e: EdgeVal) => e.count
  const EdgeSuccesses := (e: EdgeVal) => e.successes
  const EdgeFailures := (e: EdgeVal) => e.failures
  const NodeFirst := (n: NodeVal) => n.first
  const NodeLast := (n: NodeVal) => n.last
  const NodeCount := (n: NodeVal) => n.count
  const NodeRisk := (n: NodeVal) => n.risk

  ghost predicate EdgeAggregates(v: EdgeVal, es: seq<EdgeVal>) {
    && es != []
    && v.id == es[0].id && v.source == es[0].source && v.target == es[0].target
    && IsLeast(v.first, Map(EdgeFirst, es))
    && IsGreatest(v.last, Map(EdgeLast, es))
    && v.count == Total(Map(EdgeCount, es))
    && v.successes == Total(Map(EdgeSuccesses, es))
    && v.failures == Total(Map(EdgeFailures, es))
  }

  ghost predicate NodeAggregates(v: NodeVal, ns: seq<NodeVal>) {
    && ns != []
    && v.id == ns[0].id && v.kind == ns[0].kind
    && IsLeast(v.first, Map(NodeFirst, ns))
    && IsGreatest(v.last, Map(NodeLast, ns))
    && v.count == Total(Map(NodeCount, ns))
    && IsGreatestReal(v.risk, Map(NodeRisk, ns))
  }

  lemma LeastAppend(m: int, xs: seq<int>, x: int)
    requires IsLeast(m, xs)
    ensures IsLeast(Earlier(m, x), xs + [x])
  {
    assert x == (xs + [x])[|xs|];
  }

  lemma GreatestAppend(m: int, xs: seq<int>, x: int)
    requires IsGreatest(m, xs)
    ensures IsGreatest(Later(m, x), xs + [x])
  {
    assert x == (xs + [x])[|xs|];
  }

  lemma EdgeMergeAggregates(v: EdgeVal, es: seq<EdgeVal>, e: EdgeVal)
    requires EdgeAggregates(v, es)
    ensures EdgeAggregates(MergeEdge(v, e), es + [e])
  {
    MapAppend(EdgeFirst, es, e);
    LeastAppend(v.first, Map(EdgeFirst, es), e.first);
    MapAppend(EdgeLast, es, e);
    GreatestAppend(v.last, Map(EdgeLast, es), e.last);
    MapAppend(EdgeCount, es, e);
    TotalAppend(Map(EdgeCount, es), e.count);
    MapAppend(EdgeSuccesses, es, e);
    TotalAppend(Map(EdgeSuccesses, es), e.successes);
    MapAppend(EdgeFailures, es, e);
    TotalAppend(Map(EdgeFailures, es), e.failures);
  }

  lemma EdgeAloneAggregates(e: EdgeVal)
    ensures EdgeAggregates(e, [e])
  {
    assert Map(EdgeCount, [e]) == [e.count];
    assert Map(EdgeSuccesses, [e]) == [e.successes];
    assert Map(EdgeFailures, [e]) == [e.failures];
    assert Map(EdgeFirst, [e]) == [e.first];
    assert Map(EdgeLast, [e]) == [e.last];
    TotalAppend([], e.count);
    TotalAppend([], e.successes);
    TotalAppend([], e.failures);
  }

  lemma NodeMergeAggregates(v: NodeVal, ns: seq<NodeVal>, n: NodeVal)
    requires NodeAggregates(v, ns)
    ensures NodeAggregates(MergeNode(v, n), ns + [n])
  {
    MapAppend(NodeFirst, ns, n);
    LeastAppend(v.first, Map(NodeFirst, ns), n.first);
    MapAppend(NodeLast, ns, n);
    GreatestAppend(v.last, Map(NodeLast, ns), n.last);
    MapAppend(NodeCount, ns, n);
    TotalAppend(Map(NodeCount, ns), n.count);
    MapAppend(NodeRisk, ns, n);
    assert n.risk == (Map(NodeRisk, ns) + [n.risk])[|ns|];
  }

  lemma NodeAloneAggregates(n: NodeVal)
    ensures NodeAggregates(n, [n])
  {
    assert Map(NodeCount, [n]) == [n.count];
    assert Map(NodeFirst, [n]) == [n.first];
    assert Map(NodeLast, [n]) == [n.last];
    assert Map(NodeRisk, [n]) == [n.risk];
    TotalAppend([], n.count);
  }

  /** An edge exists exactly when some update named it, and then aggregates them all. */
  lemma {:induction false} EdgeLedger(us: seq<Update>, k: EdgeId)
    ensures k in ApplyAll(EMPTY, us).edges <==> EdgeUpdatesOf(us, k) != []
    ensures k in ApplyAll(EMPTY, us).edges ==>
              EdgeAggregates(ApplyAll(EMPTY, us).edges[k], EdgeUpdatesOf(us, k))
  {
    if us == [] {
    } else {
      var before, u := us[..|us| - 1], us[|us| - 1];
      EdgeLedger(before, k);
      if u.EdgeUpdate? && u.edge.id == k {
        var g := ApplyAll(EMPTY, before);
        if k in g.edges {
          EdgeMergeAggregates(g.edges[k], EdgeUpdatesOf(before, k), u.edge);
        } else {
          EdgeAloneAggregates(u.edge);
        }
      }
    }
  }

  /** The same for nodes: the base score is the largest ever reported. */
  lemma {:induction false} NodeLedger(us: seq<Update>, x: EntityId)
    ensures x in ApplyAll(EMPTY, us).nodes <==> NodeUpdatesOf(us, x) != []
    ensures x in ApplyAll(EMPTY, us).nodes ==>
              NodeAggregates(ApplyAll(EMPTY, us).nodes[x], NodeUpdatesOf(us, x))
  {
    if us == [] {
    } else {
      var before, u := us[..|us| - 1], us[|us| - 1];
      NodeLedger(before, x);
      if u.NodeUpdate? && u.node.id == x {
        var g := ApplyAll(EMPTY, before);
        if x in g.nodes {
          NodeMergeAggregates(g.nodes[x], NodeUpdatesOf(before, x), u.node);
        } else {
          NodeAloneAggregates(u.node);
        }
      }
    }
  }

  // ----- what a run shows at a moment

  /** Update `i` sights edge `k` no later than `t`. */
  predicate SightsEdge(us: seq<Update>, i: nat, k: EdgeId, t: Time) {
    i < |us| && us[i].EdgeUpdate? && us[i].edge.id == k && us[i].edge.first <= t
  }

  predicate SightsNode(us: seq<Update>, i: nat, x: EntityId, t: Time) {
    i < |us| && us[i].NodeUpdate? && us[i].node.id == x && us[i].node.first <= t
  }

  lemma {:induction false} EdgeUpdateSights(us: seq<Update>, k: EdgeId, t: Time, j: nat) returns (i: nat)
    requires j < |EdgeUpdatesOf(us, k)| && EdgeUpdatesOf(us, k)[j].first <= t
    ensures SightsEdge(us, i, k, t)
  {
    var n := |us| - 1;
    if us[n].EdgeUpdate? && us[n].edge.id == k && j == |EdgeUpdatesOf(us, k)| - 1 {
      i := n;
    } else {
      i := EdgeUpdateSights(us[..n], k, t, j);
    }
  }

  lemma {:induction false} SightingIsEdgeUpdate(us: seq<Update>, i: nat, k: EdgeId, t: Time)
    requires SightsEdge(us, i, k, t)
    ensures exists j :: 0 <= j < |EdgeUpdatesOf(us, k)| && EdgeUpdatesOf(us, k)[j] == us[i].edge
  {
    var n := |us| - 1;
    if i == n {
      assert EdgeUpdatesOf(us, k)[|EdgeUpdatesOf(us, k)| - 1] == us[n].edge;
    } else {
      SightingIsEdgeUpdate(us[..n], i, k, t);
      var j :| 0 <= j < |EdgeUpdatesOf(us[..n], k)| && EdgeUpdatesOf(us[..n], k)[j] == us[..n][i].edge;
      assert EdgeUpdatesOf(us, k)[j] == us[i].edge;
    }
  }

  lemma {:induction false} NodeUpdateSights(us: seq<Update>, x: EntityId, t: Time, j: nat) returns (i: nat)
    requires j < |NodeUpdatesOf(us, x)| && NodeUpdatesOf(us, x)[j].first <= t
    ensures SightsNode(us, i, x, t)
  {
    var n := |us| - 1;
    if us[n].NodeUpdate? && us[n].node.id == x && j == |NodeUpdatesOf(us, x)| - 1 {
      i := n;
    } else {
      i := NodeUpdateSights(us[..n], x, t, j);
    }
  }

  lemma {:induction false} SightingIsNodeUpdate(us: seq<Update>, i: nat, x: EntityId, t: Time)
    requires SightsNode(us, i, x, t)
    ensures exists j :: 0 <= j < |NodeUpdatesOf(us, x)| && NodeUpdatesOf(us, x)[j] == us[i].node
  {
    var n := |us| - 1;
    if i == n {
      assert NodeUpdatesOf(us, x)[|NodeUpdatesOf(us, x)| - 1] == us[n].node;
    } else {
      SightingIsNodeUpdate(us[..n], i, x, t);
      var j :| 0 <= j < |NodeUpdatesOf(us[..n], x)| && NodeUpdatesOf(us[..n], x)[j] == us[..n][i].node;
      assert NodeUpdatesOf(us, x)[j] == us[i].node;
    }
  }

  /** After any run, an edge is seen at `t` at the ends of its first update, if and only if some
      update of it is dated `t` or before. */
  lemma EdgeSeenExactly(us: seq<Update>, k: EdgeId, x: EntityId, t: Time)
    ensures k in Incident(ApplyAll(EMPTY, us), x, Some(t)) <==>
            && (exists i: nat :: SightsEdge(us, i, k, t)) && EdgeUpdatesOf(us, k) != []
            && (x == EdgeUpdatesOf(us, k)[0].source || x == EdgeUpdatesOf(us, k)[0].target)
  {
    var g, es := ApplyAll(EMPTY, us), EdgeUpdatesOf(us, k);
    ReachableGraphsAreCoherent(us);
    EdgeLedger(us, k);
    IncidentMember(g, x, Some(t), k);
    hide Coherent, Incident, ApplyAll, EdgeUpdatesOf;
    if k in g.edges && g.edges[k].first <= t {
      var j :| 0 <= j < |Map(EdgeFirst, es)| && Map(EdgeFirst, es)[j] == g.edges[k].first;
      var i := EdgeUpdateSights(us, k, t, j);
    }
    if i: nat :| SightsEdge(us, i, k, t) {
      SightingIsEdgeUpdate(us, i, k, t);
      var j :| 0 <= j < |es| && es[j] == us[i].edge;
      assert Map(EdgeFirst, es)[j] in Map(EdgeFirst, es);
    }
  }

  /** `get_node` finds a node at `t` if and only if some update of it is dated `t` or before. */
  lemma NodeSeenExactly(us: seq<Update>, x: EntityId, t: Time)
    ensures NodeAsOf(ApplyAll(EMPTY, us), x, Some(t)).Some? <==> exists i: nat :: SightsNode(us, i, x, t)
  {
    var g, ns := ApplyAll(EMPTY, us), NodeUpdatesOf(us, x);
    NodeLedger(us, x);
    hide ApplyAll, NodeUpdatesOf;
    if x in g.nodes && g.nodes[x].first <= t {
      var j :| 0 <= j < |Map(NodeFirst, ns)| && Map(NodeFirst, ns)[j] == g.nodes[x].first;
      var i := NodeUpdateSights(us, x, t, j);
    }
    if i: nat :| SightsNode(us, i, x, t) {
      SightingIsNodeUpdate(us, i, x, t);
      var j :| 0 <= j < |ns| && ns[j] == us[i].node;
      assert Map(NodeFirst, ns)[j] in Map(NodeFirst, ns);
    }
  }
}
