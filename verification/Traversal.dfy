/** The bounded breadth-first search shared by `get_neighbors_by_hop` and
    `find_connected_cluster`, and the proof that its depth labels are shortest distances. */
module Traversal {
  import opened Options
  import opened GraphModel
  import opened SetSums

  // ----- reference definition: walks through visible edges

  ghost predicate Linked(g: Graph, asOf: Option<Time>, x: EntityId, y: EntityId) {
    exists k :: k in g.edges && VisibleAt(g.edges[k], asOf) && Joins(g.edges[k], x, y)
  }

  predicate Joins(e: EdgeVal, x: EntityId, y: EntityId) {
    (e.source == x && e.target == y) || (e.source == y && e.target == x)
  }

  ghost predicate Walk(g: Graph, asOf: Option<Time>, p: seq<EntityId>) {
    forall i | 0 <= i < |p| - 1 :: Linked(g, asOf, p[i], p[i + 1])
  }

  /** Some walk of exactly `n` visible edges leads from `r` to `v`. */
  ghost predicate Reaches(g: Graph, asOf: Option<Time>, r: EntityId, v: EntityId, n: nat) {
    exists p :: Walk(g, asOf, p) && |p| == n + 1 && p[0] == r && p[n] == v
  }

  /** The shortest walk from `r` to `v` has exactly `n` edges. */
  ghost predicate AtDistance(g: Graph, asOf: Option<Time>, r: EntityId, v: EntityId, n: nat) {
    Reaches(g, asOf, r, v, n) && forall m: nat | m < n :: !Reaches(g, asOf, r, v, m)
  }

  lemma ReachesStart(g: Graph, asOf: Option<Time>, r: EntityId)
    ensures AtDistance(g, asOf, r, r, 0)
  {
    assert Walk(g, asOf, [r]);
    assert [r][0] == r;
  }

  lemma ReachesOnlyStart(g: Graph, asOf: Option<Time>, r: EntityId, v: EntityId)
    requires Reaches(g, asOf, r, v, 0)
    ensures v == r
  {
  }

  lemma ReachesForward(g: Graph, asOf: Option<Time>, r: EntityId, u: EntityId, v: EntityId, n: nat)
    requires Reaches(g, asOf, r, u, n) && Linked(g, asOf, u, v)
    ensures Reaches(g, asOf, r, v, n + 1)
  {
    var p :| Walk(g, asOf, p) && |p| == n + 1 && p[0] == r && p[n] == u;
    var q := p + [v];
    assert Walk(g, asOf, q) by {
      forall i | 0 <= i < |q| - 1 ensures Linked(g, asOf, q[i], q[i + 1]) {
        if i < n { assert Linked(g, asOf, p[i], p[i + 1]); }
      }
    }
    assert |q| == n + 2 && q[0] == r && q[n + 1] == v;
  }

  lemma ReachesBack(g: Graph, asOf: Option<Time>, r: EntityId, v: EntityId, n: nat)
    returns (u: EntityId)
    requires Reaches(g, asOf, r, v, n + 1)
    ensures Reaches(g, asOf, r, u, n) && Linked(g, asOf, u, v)
  {
    var p :| Walk(g, asOf, p) && |p| == n + 2 && p[0] == r && p[n + 1] == v;
    u := p[n];
    var q := p[..n + 1];
    assert Walk(g, asOf, q) by {
      forall i | 0 <= i < |q| - 1 ensures Linked(g, asOf, q[i], q[i + 1]) {
        assert Linked(g, asOf, p[i], p[i + 1]);
      }
    }
    assert |q| == n + 1 && q[0] == r && q[n] == u;
    assert Linked(g, asOf, p[n], p[n + 1]);
  }

  lemma {:induction false} ReachedHasDistance(g: Graph, asOf: Option<Time>, r: EntityId, v: EntityId, n: nat)
    returns (d: nat)
    requires Reaches(g, asOf, r, v, n)
    ensures d <= n && AtDistance(g, asOf, r, v, d)
  {
    if m: nat :| m < n && Reaches(g, asOf, r, v, m) {
      d := ReachedHasDistance(g, asOf, r, v, m);
    } else {
      d := n;
    }
  }

  lemma DistanceBack(g: Graph, asOf: Option<Time>, r: EntityId, v: EntityId, n: nat)
    returns (u: EntityId)
    requires AtDistance(g, asOf, r, v, n + 1)
    ensures AtDistance(g, asOf, r, u, n) && Linked(g, asOf, u, v)
  {
    u := ReachesBack(g, asOf, r, v, n);
    forall m: nat | m < n ensures !Reaches(g, asOf, r, u, m) {
      if Reaches(g, asOf, r, u, m) {
        ReachesForward(g, asOf, r, u, v, m);
      }
    }
  }

  lemma DistanceUnique(g: Graph, asOf: Option<Time>, r: EntityId, v: EntityId, m: nat, n: nat)
    requires AtDistance(g, asOf, r, v, m) && AtDistance(g, asOf, r, v, n)
    ensures m == n
  {
  }

  // ----- the search

  /** `depth` labels the visited ids, `queue` holds the ids still to be taken, and
      `expanded` the ids whose incident edges have been walked. */
  datatype Search = Search(depth: map<EntityId, nat>, queue: seq<EntityId>, expanded: set<EntityId>)

  function Start(r: EntityId): Search { Search(map[r := 0], [r], {}) }

  function Ends(g: Graph, ks: seq<EdgeId>, x: EntityId): (r: seq<EntityId>)
    ensures |r| == |ks|
  {
    seq(|ks|, i requires 0 <= i < |ks| => if ks[i] in g.edges then OtherEnd(g.edges[ks[i]], x) else x)
  }

  /** The far ends of the visible incident edges of `x`, in list order. */
  function Neighbors(g: Graph, x: EntityId, asOf: Option<Time>): seq<EntityId> {
    Ends(g, Incident(g, x, asOf), x)
  }

  lemma NeighborIsLinked(g: Graph, x: EntityId, i: nat, asOf: Option<Time>)
    requires Coherent(g) && i < |Neighbors(g, x, asOf)|
    ensures Linked(g, asOf, x, Neighbors(g, x, asOf)[i])
  {
    var k := Incident(g, x, asOf)[i];
    assert k in Incident(g, x, asOf);
    IncidentMember(g, x, asOf, k);
    assert Joins(g.edges[k], x, Neighbors(g, x, asOf)[i]);
  }

  lemma LinkedIsNeighbor(g: Graph, x: EntityId, y: EntityId, asOf: Option<Time>)
    requires Coherent(g) && Linked(g, asOf, x, y)
    ensures y in Neighbors(g, x, asOf)
  {
    var k :| k in g.edges && VisibleAt(g.edges[k], asOf) && Joins(g.edges[k], x, y);
    IncidentMember(g, x, asOf, k);
    var ks := Incident(g, x, asOf);
    var i :| 0 <= i < |ks| && ks[i] == k;
    assert Neighbors(g, x, asOf)[i] == y;
  }

  lemma NeighborsAreLinked(g: Graph, x: EntityId, y: EntityId, asOf: Option<Time>)
    requires Coherent(g)
    ensures y in Neighbors(g, x, asOf) <==> Linked(g, asOf, x, y)
  {
    if y in Neighbors(g, x, asOf) {
      var i :| 0 <= i < |Neighbors(g, x, asOf)| && y == Neighbors(g, x, asOf)[i];
      NeighborIsLinked(g, x, i, asOf);
    }
    if Linked(g, asOf, x, y) {
      LinkedIsNeighbor(g, x, y, asOf);
    }
  }

  /** Every id an edge ends in: the search can discover no other. */
  function Endpoints(g: Graph): set<EntityId> {
    (set k | k in g.edges :: g.edges[k].source) + (set k | k in g.edges :: g.edges[k].target)
  }

  /** Label one id `d` and queue it, unless it was seen before. */
  function Visit(s: Search, v: EntityId, d: nat): Search {
    if v in s.depth then s else s.(depth := s.depth[v := d], queue := s.queue + [v])
  }

  /** Walk a neighbour list from the front. */
  function Discover(s: Search, ns: seq<EntityId>, d: nat): Search {
    if ns == [] then s else Visit(Discover(s, ns[..|ns| - 1], d), ns[|ns| - 1], d)
  }

  /** What discovery did: the new ids `found` are queued in order, each once. */
  ghost predicate Discovered(s: Search, t: Search, ns: seq<EntityId>, d: nat, found: seq<EntityId>) {
    && t.queue == s.queue + found
    && t.expanded == s.expanded
    && (forall v | v in s.depth :: v in t.depth && t.depth[v] == s.depth[v])
    && (forall v | v in found :: v !in s.depth && v in ns && v in t.depth && t.depth[v] == d)
    && (forall v | v in t.depth :: v in s.depth || v in found)
    && (forall v | v in ns :: v in t.depth)
    && (forall i, j | 0 <= i < j < |found| :: found[i] != found[j])
  }

  lemma {:induction false} DiscoverSpec(s: Search, ns: seq<EntityId>, d: nat) returns (found: seq<EntityId>)
    ensures Discovered(s, Discover(s, ns, d), ns, d, found)
  {
    if ns == [] {
      found := [];
    } else {
      var v, before := ns[|ns| - 1], ns[..|ns| - 1];
      var earlier := DiscoverSpec(s, before, d);
      assert forall w :: w in ns <==> w in before || w == v by { assert ns == before + [v]; }
      found := if v in Discover(s, before, d).depth then earlier else earlier + [v];
    }
  }

  /** The state with the queue head taken off, marked as walked. */
  function Taken(s: Search): Search
    requires s.queue != []
  {
    s.(queue := s.queue[1..], expanded := s.expanded + {s.queue[0]})
  }

  function Expand(g: Graph, asOf: Option<Time>, s: Search): Search
    requires s.queue != [] && s.queue[0] in s.depth
  {
    Discover(Taken(s), Neighbors(g, s.queue[0], asOf), s.depth[s.queue[0]] + 1)
  }

  function Step(g: Graph, asOf: Option<Time>, maxDepth: int, s: Search): Search
    requires s.queue != [] && s.queue[0] in s.depth
  {
    var x := s.queue[0];
    if s.depth[x] < maxDepth then Expand(g, asOf, s) else s.(queue := s.queue[1..])
  }

  function Unseen(g: Graph, s: Search): set<EntityId> {
    Endpoints(g) - s.depth.Keys
  }

  ghost predicate QueueLabelled(s: Search) {
    forall v | v in s.queue :: v in s.depth
  }

  lemma NeighborsAreEndpoints(g: Graph, x: EntityId, asOf: Option<Time>)
    ensures forall w | w in Neighbors(g, x, asOf) :: w in Endpoints(g)
  {
    var ks := Incident(g, x, asOf);
    forall i | 0 <= i < |ks| ensures Ends(g, ks, x)[i] in Endpoints(g) {
      VisibleMember(g, Touching(g, x), asOf, ks[i]);
    }
  }

  /** The termination order of the search. */
  ghost predicate Closer(g: Graph, s: Search, t: Search) {
    && t.depth.Keys >= s.depth.Keys
    && (|Unseen(g, t)| < |Unseen(g, s)| || (|Unseen(g, t)| == |Unseen(g, s)| && |t.queue| < |s.queue|))
  }

  lemma PopProgress(g: Graph, s: Search, t: Search)
    requires QueueLabelled(s) && s.queue != []
    requires t.depth == s.depth && t.queue == s.queue[1..]
    ensures QueueLabelled(t) && Closer(g, s, t)
  {
  }

  lemma ExpandDiscovers(g: Graph, asOf: Option<Time>, s: Search) returns (found: seq<EntityId>)
    requires s.queue != [] && s.queue[0] in s.depth
    ensures Discovered(Taken(s), Expand(g, asOf, s), Neighbors(g, s.queue[0], asOf), s.depth[s.queue[0]] + 1, found)
  {
    found := DiscoverSpec(Taken(s), Neighbors(g, s.queue[0], asOf), s.depth[s.queue[0]] + 1);
  }

  lemma StepProgress(g: Graph, asOf: Option<Time>, maxDepth: int, s: Search)
    requires QueueLabelled(s) && s.queue != []
    ensures QueueLabelled(Step(g, asOf, maxDepth, s)) && Closer(g, s, Step(g, asOf, maxDepth, s))
  {
    if s.depth[s.queue[0]] < maxDepth {
      var x, t := s.queue[0], Step(g, asOf, maxDepth, s);
      NeighborsAreEndpoints(g, x, asOf);
      var found := ExpandDiscovers(g, asOf, s);
      DiscoveryShrinks(g, s, t, Neighbors(g, x, asOf), s.depth[x] + 1, found);
    } else {
      PopProgress(g, s, Step(g, asOf, maxDepth, s));
    }
  }

  lemma DiscoveryShrinks(g: Graph, s: Search, t: Search, ns: seq<EntityId>, d: nat, found: seq<EntityId>)
    requires QueueLabelled(s) && s.queue != []
    requires Discovered(Taken(s), t, ns, d, found)
    requires forall w | w in ns :: w in Endpoints(g)
    ensures QueueLabelled(t) && Closer(g, s, t)
  {
    if found == [] {
      assert t.depth.Keys == s.depth.Keys;
    } else {
      var w := found[0];
      assert w in t.depth && w !in s.depth && w in ns;
      FewerRemain(Endpoints(g), s.depth.Keys, t.depth.Keys, w);
    }
  }

  lemma FewerRemain(all: set<EntityId>, a: set<EntityId>, b: set<EntityId>, w: EntityId)
    requires a <= b && w in all && w in b && w !in a
    ensures |all - b| < |all - a|
  {
    SubsetSize(all - b, all - a - {w});
  }

  /** The loop both traversals run: stop on an empty queue or once `maxNodes` ids are seen. */
  function Explore(g: Graph, asOf: Option<Time>, maxDepth: int, maxNodes: int, s: Search): Search
    requires QueueLabelled(s)
    decreases |Unseen(g, s)|, |s.queue|
  {
    if s.queue == [] || |s.depth| >= maxNodes then s
    else
      StepProgress(g, asOf, maxDepth, s);
      Explore(g, asOf, maxDepth, maxNodes, Step(g, asOf, maxDepth, s))
  }

  function SearchFrom(g: Graph, r: EntityId, asOf: Option<Time>, maxDepth: int, maxNodes: int): Search
  {
    Explore(g, asOf, maxDepth, maxNodes, Start(r))
  }

  // ----- exactness

  /** Every label is the shortest distance, and no label passes `maxDepth`. */
  ghost predicate Labelled(g: Graph, asOf: Option<Time>, r: EntityId, maxDepth: int, s: Search) {
    && r in s.depth
    && (forall v | v in s.depth :: AtDistance(g, asOf, r, v, s.depth[v]))
    && (forall v | v in s.depth :: s.depth[v] <= maxDepth || s.depth[v] == 0)
  }

  /** The queue has no repeats, is sorted by label and spans at most two labels. */
  ghost predicate Ordered(s: Search) {
    && QueueLabelled(s)
    && (forall i, j | 0 <= i < j < |s.queue| :: s.queue[i] != s.queue[j])
    && (forall i, j | 0 <= i <= j < |s.queue| ::
          s.depth[s.queue[i]] <= s.depth[s.queue[j]] <= s.depth[s.queue[i]] + 1)
  }

  /** Ids that left the queue short of `maxDepth` were walked, and only those. */
  ghost predicate Walked(g: Graph, asOf: Option<Time>, maxDepth: int, s: Search) {
    && (forall v | v in s.depth && v !in s.queue && s.depth[v] < maxDepth :: v in s.expanded)
    && (forall v | v in s.expanded :: v in s.depth && v !in s.queue && s.depth[v] < maxDepth)
    && (forall v, w | v in s.expanded && Linked(g, asOf, v, w) :: w in s.depth)
  }

  /** What every state of the search keeps. */
  ghost predicate Exact(g: Graph, asOf: Option<Time>, r: EntityId, maxDepth: int, s: Search) {
    Labelled(g, asOf, r, maxDepth, s) && Ordered(s) && Walked(g, asOf, maxDepth, s)
  }

  lemma StartExact(g: Graph, asOf: Option<Time>, r: EntityId, maxDepth: int)
    ensures Exact(g, asOf, r, maxDepth, Start(r))
  {
    ReachesStart(g, asOf, r);
  }

  lemma HeadIsLeast(g: Graph, asOf: Option<Time>, r: EntityId, maxDepth: int, s: Search)
    requires Exact(g, asOf, r, maxDepth, s)
    ensures forall v | v in s.queue :: s.depth[s.queue[0]] <= s.depth[v]
    ensures s.queue != [] ==> s.depth[s.queue[0]] == 0 || s.depth[s.queue[0]] <= maxDepth
  {
    forall v | v in s.queue ensures s.depth[s.queue[0]] <= s.depth[v] {
      var i :| 0 <= i < |s.queue| && s.queue[i] == v;
      assert s.depth[s.queue[0]] <= s.depth[s.queue[i]];
    }
  }

  /** No id nearer than the head of the queue is missing; with an empty queue, no id
      within `maxDepth` is. */
  lemma {:induction false} NearerAreVisited(
    g: Graph, asOf: Option<Time>, r: EntityId, maxDepth: int, s: Search, v: EntityId, n: nat)
    requires Coherent(g) && Exact(g, asOf, r, maxDepth, s)
    requires AtDistance(g, asOf, r, v, n)
    requires if s.queue == [] then n == 0 || n <= maxDepth else n <= s.depth[s.queue[0]]
    ensures v in s.depth && s.depth[v] == n
    decreases n
  {
    if n == 0 {
      ReachesOnlyStart(g, asOf, r, v);
    } else {
      var u := DistanceBack(g, asOf, r, v, n - 1);
      NearerAreVisited(g, asOf, r, maxDepth, s, u, n - 1);
      HeadIsLeast(g, asOf, r, maxDepth, s);
      assert u !in s.queue && u in s.expanded;
    }
    assert v in s.depth;
    DistanceUnique(g, asOf, r, v, n, s.depth[v]);
  }

  /** An unseen neighbour of the queue head lies exactly one step further out. */
  lemma FreshDistance(
    g: Graph, asOf: Option<Time>, r: EntityId, maxDepth: int, s: Search, w: EntityId)
    requires Coherent(g) && Exact(g, asOf, r, maxDepth, s) && s.queue != []
    requires Linked(g, asOf, s.queue[0], w) && w !in s.depth
    ensures AtDistance(g, asOf, r, w, s.depth[s.queue[0]] + 1)
  {
    var x := s.queue[0];
    var d := s.depth[x];
    ReachesForward(g, asOf, r, x, w, d);
    forall m: nat | m < d + 1 ensures !Reaches(g, asOf, r, w, m) {
      if Reaches(g, asOf, r, w, m) {
        var n := ReachedHasDistance(g, asOf, r, w, m);
        NearerAreVisited(g, asOf, r, maxDepth, s, w, n);
      }
    }
  }

  lemma ExpandKeepsOrdered(s: Search, t: Search, ns: seq<EntityId>, found: seq<EntityId>)
    requires Ordered(s) && s.queue != []
    requires Discovered(Taken(s), t, ns, s.depth[s.queue[0]] + 1, found)
    ensures Ordered(t)
  {
    var d, n := s.depth[s.queue[0]], |s.queue| - 1;
    assert forall i | 0 <= i < n :: t.queue[i] == s.queue[i + 1] && d <= s.depth[s.queue[i + 1]] <= d + 1;
    assert forall i | n <= i < |t.queue| :: t.queue[i] == found[i - n] && t.queue[i] in found;
    assert forall i | 0 <= i < |t.queue| :: d <= t.depth[t.queue[i]] <= d + 1;
  }

  lemma ExpandKeepsLabelled(
    g: Graph, asOf: Option<Time>, r: EntityId, maxDepth: int, s: Search, t: Search, ns: seq<EntityId>,
    found: seq<EntityId>)
    requires Labelled(g, asOf, r, maxDepth, s) && s.queue != [] && s.queue[0] in s.depth
    requires s.depth[s.queue[0]] < maxDepth
    requires Discovered(Taken(s), t, ns, s.depth[s.queue[0]] + 1, found)
    requires forall w | w in found :: AtDistance(g, asOf, r, w, s.depth[s.queue[0]] + 1)
    ensures Labelled(g, asOf, r, maxDepth, t)
  {
  }

  lemma ExpandKeepsWalked(
    g: Graph, asOf: Option<Time>, maxDepth: int, s: Search, t: Search, ns: seq<EntityId>, found: seq<EntityId>)
    requires Ordered(s) && Walked(g, asOf, maxDepth, s) && s.queue != []
    requires s.depth[s.queue[0]] < maxDepth
    requires Discovered(Taken(s), t, ns, s.depth[s.queue[0]] + 1, found)
    requires forall w :: w in ns <==> Linked(g, asOf, s.queue[0], w)
    ensures Walked(g, asOf, maxDepth, t)
  {
    var x, tail := s.queue[0], s.queue[1..];
    assert forall v :: v in s.queue <==> v == x || v in tail;
    assert forall v :: v in t.queue <==> v in tail || v in found;
    assert x !in tail;
  }

  lemma PopKeepsExact(g: Graph, asOf: Option<Time>, r: EntityId, maxDepth: int, s: Search, t: Search)
    requires Exact(g, asOf, r, maxDepth, s) && s.queue != []
    requires s.depth[s.queue[0]] >= maxDepth
    requires t == s.(queue := s.queue[1..])
    ensures Exact(g, asOf, r, maxDepth, t)
  {
    hide AtDistance, Linked;
    assert forall v :: v in s.queue <==> v == s.queue[0] || v in t.queue;
    assert forall i | 0 <= i < |t.queue| :: t.queue[i] == s.queue[i + 1];
    assert Ordered(t);
  }

  lemma StepKeepsExact(g: Graph, asOf: Option<Time>, r: EntityId, maxDepth: int, s: Search)
    requires Coherent(g) && Exact(g, asOf, r, maxDepth, s) && s.queue != []
    ensures Exact(g, asOf, r, maxDepth, Step(g, asOf, maxDepth, s))
  {
    var x, t := s.queue[0], Step(g, asOf, maxDepth, s);
    assert x in s.depth;
    hide Labelled, Ordered, Walked, Coherent;
    if s.depth[x] < maxDepth {
      var ns := Neighbors(g, x, asOf);
      forall w ensures w in ns <==> Linked(g, asOf, x, w) { NeighborsAreLinked(g, x, w, asOf); }
      var found := ExpandDiscovers(g, asOf, s);
      ExpandKeepsOrdered(s, t, ns, found);
      forall w | w in found ensures AtDistance(g, asOf, r, w, s.depth[x] + 1) {
        FreshDistance(g, asOf, r, maxDepth, s, w);
      }
      ExpandKeepsLabelled(g, asOf, r, maxDepth, s, t, ns, found);
      ExpandKeepsWalked(g, asOf, maxDepth, s, t, ns, found);
    } else {
      PopKeepsExact(g, asOf, r, maxDepth, s, t);
    }
  }

  lemma {:induction false} ExploreExact(
    g: Graph, asOf: Option<Time>, r: EntityId, maxDepth: int, maxNodes: int, s: Search)
    requires Coherent(g) && Exact(g, asOf, r, maxDepth, s)
    ensures Exact(g, asOf, r, maxDepth, Explore(g, asOf, maxDepth, maxNodes, s))
    decreases |Unseen(g, s)|, |s.queue|
  {
    if s.queue == [] || |s.depth| >= maxNodes {
    } else {
      StepProgress(g, asOf, maxDepth, s);
      StepKeepsExact(g, asOf, r, maxDepth, s);
      ExploreExact(g, asOf, r, maxDepth, maxNodes, Step(g, asOf, maxDepth, s));
    }
  }

  /** The search stopped on `maxNodes` while ids were still queued. */
  predicate Truncated(g: Graph, r: EntityId, asOf: Option<Time>, maxDepth: int, maxNodes: int)
  {
    SearchFrom(g, r, asOf, maxDepth, maxNodes).queue != []
  }

  /** Labels are exact whether or not the search was cut short; an uncut search labels
      every id within `maxDepth`. */
  lemma SearchIsExact(g: Graph, r: EntityId, asOf: Option<Time>, maxDepth: int, maxNodes: int, v: EntityId, n: nat)
    requires Coherent(g)
    ensures var depth := SearchFrom(g, r, asOf, maxDepth, maxNodes).depth;
      && (v in depth && depth[v] == n ==> AtDistance(g, asOf, r, v, n) && (n <= maxDepth || n == 0))
      && (!Truncated(g, r, asOf, maxDepth, maxNodes) ==>
            (v in depth && depth[v] == n <==> AtDistance(g, asOf, r, v, n) && (n <= maxDepth || n == 0)))
  {
    StartExact(g, asOf, r, maxDepth);
    ExploreExact(g, asOf, r, maxDepth, maxNodes, Start(r));
    var s := SearchFrom(g, r, asOf, maxDepth, maxNodes);
    if s.queue == [] && AtDistance(g, asOf, r, v, n) && (n <= maxDepth || n == 0) {
      NearerAreVisited(g, asOf, r, maxDepth, s, v, n);
    }
  }

  // ----- get_neighbors_by_hop

  /** The two sets the traversal reports, keyed 1 and 2 in the source. */
  datatype Hops = Hops(one: set<EntityId>, two: set<EntityId>)

  function HopsOf(depth: map<EntityId, nat>): Hops {
    Hops(set v | v in depth && depth[v] == 1, set v | v in depth && depth[v] == 2)
  }

  function NeighborsByHop(g: Graph, r: EntityId, asOf: Option<Time>, maxDepth: int, maxNodes: int): Hops
  {
    if r !in g.nodes then Hops({}, {}) else HopsOf(SearchFrom(g, r, asOf, maxDepth, maxNodes).depth)
  }

  function Hop(h: Hops, n: nat): set<EntityId>
    requires n == 1 || n == 2
  {
    if n == 1 then h.one else h.two
  }

  /** Hop `n` holds only ids at shortest distance `n`, truncated or not; untruncated and
      with `n <= maxDepth` it holds all of them. */
  lemma HopsAreExact(
    g: Graph, r: EntityId, asOf: Option<Time>, maxDepth: int, maxNodes: int, n: nat, v: EntityId)
    requires Coherent(g) && r in g.nodes && (n == 1 || n == 2)
    ensures v in Hop(NeighborsByHop(g, r, asOf, maxDepth, maxNodes), n) ==>
              n <= maxDepth && AtDistance(g, asOf, r, v, n)
    ensures !Truncated(g, r, asOf, maxDepth, maxNodes) && n <= maxDepth && AtDistance(g, asOf, r, v, n) ==>
              v in Hop(NeighborsByHop(g, r, asOf, maxDepth, maxNodes), n)
  {
    SearchIsExact(g, r, asOf, maxDepth, maxNodes, v, n);
  }

  lemma StepGrows(g: Graph, asOf: Option<Time>, maxDepth: int, s: Search, v: EntityId)
    requires QueueLabelled(s) && s.queue != [] && v in s.depth
    ensures v in Step(g, asOf, maxDepth, s).depth && Step(g, asOf, maxDepth, s).depth[v] == s.depth[v]
  {
    if s.depth[s.queue[0]] < maxDepth {
      var found := ExpandDiscovers(g, asOf, s);
    }
  }

  lemma {:induction false} ExploreGrows(
    g: Graph, asOf: Option<Time>, maxDepth: int, maxNodes: int, s: Search, v: EntityId)
    requires QueueLabelled(s) && v in s.depth
    ensures v in Explore(g, asOf, maxDepth, maxNodes, s).depth
    ensures Explore(g, asOf, maxDepth, maxNodes, s).depth[v] == s.depth[v]
    decreases |Unseen(g, s)|, |s.queue|
  {
    if s.queue == [] || |s.depth| >= maxNodes {
    } else {
      StepProgress(g, asOf, maxDepth, s);
      StepGrows(g, asOf, maxDepth, s, v);
      ExploreGrows(g, asOf, maxDepth, maxNodes, Step(g, asOf, maxDepth, s), v);
    }
  }

  /** The root is always walked in full, so hop 1 is complete even in a truncated search. */
  lemma HopOneIsComplete(
    g: Graph, r: EntityId, asOf: Option<Time>, maxDepth: int, maxNodes: int, v: EntityId)
    requires Coherent(g) && r in g.nodes && maxDepth >= 1 && maxNodes >= 2
    ensures v in NeighborsByHop(g, r, asOf, maxDepth, maxNodes).one <==> AtDistance(g, asOf, r, v, 1)
  {
    HopsAreExact(g, r, asOf, maxDepth, maxNodes, 1, v);
    if AtDistance(g, asOf, r, v, 1) {
      RootNeighborIsSeen(g, r, asOf, maxDepth, maxNodes, v);
    }
  }

  lemma LinkedIsDistanceOne(g: Graph, r: EntityId, asOf: Option<Time>, y: EntityId)
    requires Linked(g, asOf, r, y) && y != r
    ensures AtDistance(g, asOf, r, y, 1)
  {
    ReachesStart(g, asOf, r);
    ReachesForward(g, asOf, r, r, y, 0);
    if Reaches(g, asOf, r, y, 0) {
      ReachesOnlyStart(g, asOf, r, y);
    }
  }

  lemma FirstStepSees(g: Graph, r: EntityId, asOf: Option<Time>, maxDepth: int, v: EntityId)
    requires Coherent(g) && maxDepth >= 1 && AtDistance(g, asOf, r, v, 1)
    ensures v in Step(g, asOf, maxDepth, Start(r)).depth
  {
    var u := DistanceBack(g, asOf, r, v, 0);
    ReachesOnlyStart(g, asOf, r, u);
    LinkedIsNeighbor(g, r, v, asOf);
    var found := ExpandDiscovers(g, asOf, Start(r));
  }

  lemma RootNeighborIsSeen(
    g: Graph, r: EntityId, asOf: Option<Time>, maxDepth: int, maxNodes: int, v: EntityId)
    requires Coherent(g) && maxDepth >= 1 && maxNodes >= 2 && AtDistance(g, asOf, r, v, 1)
    ensures var depth := SearchFrom(g, r, asOf, maxDepth, maxNodes).depth; v in depth && depth[v] == 1
  {
    FirstStepSees(g, r, asOf, maxDepth, v);
    StepProgress(g, asOf, maxDepth, Start(r));
    ExploreGrows(g, asOf, maxDepth, maxNodes, Step(g, asOf, maxDepth, Start(r)), v);
    var d := SearchFrom(g, r, asOf, maxDepth, maxNodes).depth[v];
    SearchIsExact(g, r, asOf, maxDepth, maxNodes, v, d);
    DistanceUnique(g, asOf, r, v, 1, d);
  }

  lemma LinkedIsHopOne(g: Graph, r: EntityId, asOf: Option<Time>, maxDepth: int, maxNodes: int, y: EntityId)
    requires Coherent(g) && r in g.nodes && maxDepth >= 1 && maxNodes >= 2
    requires Linked(g, asOf, r, y) && y != r
    ensures y in NeighborsByHop(g, r, asOf, maxDepth, maxNodes).one
  {
    LinkedIsDistanceOne(g, r, asOf, y);
    HopOneIsComplete(g, r, asOf, maxDepth, maxNodes, y);
  }

  // ----- find_connected_cluster

  /** The ids the cluster search visits and the edges it collects. */
  datatype Cluster = Cluster(visited: set<EntityId>, edges: set<EdgeId>)

  /** The visible edges with an end in `xs`. */
  function EdgesTouching(g: Graph, asOf: Option<Time>, xs: set<EntityId>): set<EdgeId> {
    set k | k in g.edges && VisibleAt(g.edges[k], asOf) && (g.edges[k].source in xs || g.edges[k].target in xs)
  }

  function ClusterAround(g: Graph, r: EntityId, asOf: Option<Time>, maxDepth: int, maxNodes: int): Cluster
  {
    if r !in g.nodes then Cluster({}, {})
    else
      var s := SearchFrom(g, r, asOf, maxDepth, maxNodes);
      Cluster(s.depth.Keys, EdgesTouching(g, asOf, s.expanded))
  }

  lemma LayersAtDepthTwo(g: Graph, r: EntityId, asOf: Option<Time>, s: Search)
    requires Exact(g, asOf, r, 2, s)
    ensures s.depth.Keys == {r} + HopsOf(s.depth).one + HopsOf(s.depth).two
    ensures s.depth[r] == 0
    ensures forall v | v in s.depth && s.depth[v] == 0 :: v == r
  {
    ReachesStart(g, asOf, r);
    DistanceUnique(g, asOf, r, r, 0, s.depth[r]);
    forall v | v in s.depth && s.depth[v] == 0 ensures v == r {
      ReachesOnlyStart(g, asOf, r, v);
    }
  }

  lemma WalkedAtDepthTwo(g: Graph, r: EntityId, asOf: Option<Time>, s: Search)
    requires Exact(g, asOf, r, 2, s) && s.queue == []
    ensures s.expanded == {r} + HopsOf(s.depth).one
  {
    LayersAtDepthTwo(g, r, asOf, s);
    forall v ensures v in s.expanded <==> v in {r} + HopsOf(s.depth).one {
    }
  }

  /** At depth 2 the cluster is the root plus both hop sets, truncated or not; untruncated,
      its edges are exactly the visible edges touching the root or hop 1. */
  lemma ClusterMatchesHops(g: Graph, r: EntityId, asOf: Option<Time>, maxNodes: int)
    requires Coherent(g) && r in g.nodes
    ensures ClusterAround(g, r, asOf, 2, maxNodes).visited ==
            {r} + NeighborsByHop(g, r, asOf, 2, maxNodes).one + NeighborsByHop(g, r, asOf, 2, maxNodes).two
    ensures !Truncated(g, r, asOf, 2, maxNodes) ==>
              ClusterAround(g, r, asOf, 2, maxNodes).edges ==
              EdgesTouching(g, asOf, {r} + NeighborsByHop(g, r, asOf, 2, maxNodes).one)
  {
    StartExact(g, asOf, r, 2);
    ExploreExact(g, asOf, r, 2, maxNodes, Start(r));
    var s := SearchFrom(g, r, asOf, 2, maxNodes);
    LayersAtDepthTwo(g, r, asOf, s);
    if s.queue == [] {
      WalkedAtDepthTwo(g, r, asOf, s);
    }
  }

  // ----- graphs that look the same at a cut

  predicate Shown(g: Graph, k: EdgeId, asOf: Option<Time>) {
    k in g.edges && VisibleAt(g.edges[k], asOf)
  }

  /** Both graphs list the same edges with the same ends at the cut. */
  ghost predicate SameAt(g: Graph, h: Graph, asOf: Option<Time>)
  {
    && (forall k :: Shown(g, k, asOf) == Shown(h, k, asOf))
    && (forall x :: Incident(g, x, asOf) == Incident(h, x, asOf))
    && (forall k | k in g.edges :: k in h.edges
          && h.edges[k].source == g.edges[k].source && h.edges[k].target == g.edges[k].target)
  }

  lemma SameNeighbors(g: Graph, h: Graph, asOf: Option<Time>, x: EntityId)
    requires SameAt(g, h, asOf)
    ensures Neighbors(g, x, asOf) == Neighbors(h, x, asOf)
  {
    var ks := Incident(g, x, asOf);
    assert Incident(h, x, asOf) == ks;
    forall i | 0 <= i < |ks| ensures Ends(g, ks, x)[i] == Ends(h, ks, x)[i] {
      VisibleMember(g, Touching(g, x), asOf, ks[i]);
    }
  }

  /** The two searches run in step. */
  lemma {:induction false} SameSearch(
    g: Graph, h: Graph, asOf: Option<Time>, maxDepth: int, maxNodes: int, s: Search)
    requires SameAt(g, h, asOf) && QueueLabelled(s)
    ensures Explore(g, asOf, maxDepth, maxNodes, s) == Explore(h, asOf, maxDepth, maxNodes, s)
    decreases |Unseen(g, s)|, |s.queue|
  {
    if s.queue == [] || |s.depth| >= maxNodes {
    } else {
      SameNeighbors(g, h, asOf, s.queue[0]);
      assert Step(g, asOf, maxDepth, s) == Step(h, asOf, maxDepth, s);
      StepProgress(g, asOf, maxDepth, s);
      StepProgress(h, asOf, maxDepth, s);
      SameSearch(g, h, asOf, maxDepth, maxNodes, Step(g, asOf, maxDepth, s));
    }
  }

  /** Around an id that is no node, both searches find nothing, whatever edges end there. */
  lemma UnknownRootFindsNothing(g: Graph, r: EntityId, asOf: Option<Time>, maxDepth: int, maxNodes: int)
    requires r !in g.nodes
    ensures NeighborsByHop(g, r, asOf, maxDepth, maxNodes) == Hops({}, {})
    ensures ClusterAround(g, r, asOf, maxDepth, maxNodes) == Cluster({}, {})
  {
  }

  // ----- the statistics of a cluster

  datatype ClusterAnalysis = ClusterAnalysis(
    nodeCount: int, edgeCount: int, merchants: int, accounts: int, devices: int, ips: int, instruments: int,
    failureRate: real, totalEvents: int)

  function KnownOf(g: Graph, xs: set<EntityId>, kind: EntityKind): set<EntityId> {
    set x | x in xs && x in g.nodes && g.nodes[x].kind == kind
  }

  function CountIn(g: Graph): EdgeId -> int { k => if k in g.edges then g.edges[k].count else 0 }

  function SuccessesIn(g: Graph): EdgeId -> int { k => if k in g.edges then g.edges[k].successes else 0 }

  function FailuresIn(g: Graph): EdgeId -> int { k => if k in g.edges then g.edges[k].failures else 0 }

  /** Failures as a share of all outcomes, 0 without outcomes. */
  function FailureRate(successes: int, failures: int): real {
    if successes + failures > 0 then failures as real / (successes + failures) as real else 0.0
  }

  /** The summary `find_connected_cluster` reports of a cluster. */
  ghost function Analysed(g: Graph, c: Cluster): ClusterAnalysis {
    ClusterAnalysis(
      |set x | x in c.visited && x in g.nodes|, |c.edges|,
      |KnownOf(g, c.visited, Merchant)|, |KnownOf(g, c.visited, Account)|, |KnownOf(g, c.visited, Device)|,
      |KnownOf(g, c.visited, Ip)|, |KnownOf(g, c.visited, PaymentInstrument)|,
      FailureRate(Sum(c.edges, SuccessesIn(g)), Sum(c.edges, FailuresIn(g))), Sum(c.edges, CountIn(g)))
  }

  /** The summary, field by field: known ids of each kind among those visited, and the failure
      share and events of the edges met. */
  lemma AnalysedExactly(g: Graph, c: Cluster)
    ensures var a := Analysed(g, c);
      && a.edgeCount == |c.edges| && a.nodeCount == |set x | x in c.visited && x in g.nodes|
      && a.merchants == |set x | x in c.visited && x in g.nodes && g.nodes[x].kind == Merchant|
      && a.accounts == |set x | x in c.visited && x in g.nodes && g.nodes[x].kind == Account|
      && a.devices == |set x | x in c.visited && x in g.nodes && g.nodes[x].kind == Device|
      && a.ips == |set x | x in c.visited && x in g.nodes && g.nodes[x].kind == Ip|
      && a.instruments == |set x | x in c.visited && x in g.nodes && g.nodes[x].kind == PaymentInstrument|
      && a.totalEvents == Sum(c.edges, (k: EdgeId) => if k in g.edges then g.edges[k].count else 0)
    ensures var ok := Sum(c.edges, (k: EdgeId) => if k in g.edges then g.edges[k].successes else 0);
      var failed := Sum(c.edges, (k: EdgeId) => if k in g.edges then g.edges[k].failures else 0);
      Analysed(g, c).failureRate == if ok + failed > 0 then failed as real / (ok + failed) as real else 0.0
  {
    SumSame(c.edges, CountIn(g), (k: EdgeId) => if k in g.edges then g.edges[k].count else 0);
    SumSame(c.edges, SuccessesIn(g), (k: EdgeId) => if k in g.edges then g.edges[k].successes else 0);
    SumSame(c.edges, FailuresIn(g), (k: EdgeId) => if k in g.edges then g.edges[k].failures else 0);
    hide Sum;
  }
}
