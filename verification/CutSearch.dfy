/** What a search at depth 2 reports when it may be cut short, list order and all. */
module CutSearch {
  import opened Options
  import opened GraphModel
  import opened SetSums
  import opened Traversal

  /** The root and its neighbours. */
  function Ring(g: Graph, r: EntityId, asOf: Option<Time>): set<EntityId> {
    {r} + set v | v in Neighbors(g, r, asOf)
  }

  /** What expanding `x` finds outside the ring. */
  function NewFrom(g: Graph, r: EntityId, asOf: Option<Time>, x: EntityId): set<EntityId> {
    if x == r then {} else (set v | v in Neighbors(g, x, asOf)) - Ring(g, r, asOf)
  }

  /** What expanding `xs` in order finds on top of `base`, as long as there is room left. */
  function FoundFrom(
    g: Graph, r: EntityId, asOf: Option<Time>, base: set<EntityId>, xs: seq<EntityId>, room: int): set<EntityId>
  {
    if xs == [] then base
    else
      var n := |xs| - 1;
      var found := FoundFrom(g, r, asOf, base, xs[..n], room);
      if |found| >= room then found else found + NewFrom(g, r, asOf, xs[n])
  }

  // ----- the queue after the root turn

  /** The ids of a list other than `r`, each where it occurs first. */
  function Firsts(r: EntityId, xs: seq<EntityId>): seq<EntityId> {
    if xs == [] then []
    else
      var n := |xs| - 1;
      var before := Firsts(r, xs[..n]);
      if xs[n] == r || xs[n] in before then before else before + [xs[n]]
  }

  lemma {:induction false} FirstsMembers(r: EntityId, xs: seq<EntityId>)
    ensures forall v :: v in Firsts(r, xs) <==> v in xs && v != r
  {
    if xs == [] {
    } else {
      var n := |xs| - 1;
      FirstsMembers(r, xs[..n]);
      assert xs == xs[..n] + [xs[n]];
    }
  }

  /** The root turn labels the neighbours 1 and queues them in this order. */
  lemma {:induction false} RootDiscovers(r: EntityId, xs: seq<EntityId>)
    ensures var s := Discover(Search(map[r := 0], [], {r}), xs, 1);
      && s.queue == Firsts(r, xs) && s.expanded == {r}
      && (forall v :: v in s.depth <==> v == r || v in xs)
      && (forall v | v in s.depth :: s.depth[v] == if v == r then 0 else 1)
  {
    if xs == [] {
    } else {
      var n := |xs| - 1;
      RootDiscovers(r, xs[..n]);
      FirstsMembers(r, xs[..n]);
      assert xs == xs[..n] + [xs[n]];
    }
  }

  lemma {:induction false} FoundHasAll(
    g: Graph, r: EntityId, asOf: Option<Time>, base: set<EntityId>, xs: seq<EntityId>, room: int)
    ensures base <= FoundFrom(g, r, asOf, base, xs, room)
    ensures |FoundFrom(g, r, asOf, base, xs, room)| < room ==>
              forall x | x in xs :: NewFrom(g, r, asOf, x) <= FoundFrom(g, r, asOf, base, xs, room)
  {
    hide NewFrom;
    if xs == [] {
    } else {
      var n := |xs| - 1;
      FoundHasAll(g, r, asOf, base, xs[..n], room);
      assert xs == xs[..n] + [xs[n]];
      var found := FoundFrom(g, r, asOf, base, xs[..n], room);
      if |found| < room {
        SubsetSize(found, FoundFrom(g, r, asOf, base, xs, room));
      }
    }
  }

  lemma FoundStep(
    g: Graph, r: EntityId, asOf: Option<Time>, base: set<EntityId>, xs: seq<EntityId>, x: EntityId, room: int)
    ensures var found := FoundFrom(g, r, asOf, base, xs, room);
      FoundFrom(g, r, asOf, base, xs + [x], room) == if |found| >= room then found else found + NewFrom(g, r, asOf, x)
  {
    hide NewFrom;
    assert (xs + [x])[..|xs|] == xs;
  }

  lemma NothingFound(g: Graph, r: EntityId, asOf: Option<Time>, base: set<EntityId>, room: int)
    ensures FoundFrom(g, r, asOf, base, [], room) == base
  {
  }

  /** Repeats and the root itself find nothing more. */
  lemma {:induction false} FirstsFindTheSame(g: Graph, r: EntityId, asOf: Option<Time>, xs: seq<EntityId>, room: int)
    ensures FoundFrom(g, r, asOf, {}, Firsts(r, xs), room) == FoundFrom(g, r, asOf, {}, xs, room)
  {
    hide NewFrom, FoundFrom;
    if xs == [] {
    } else {
      var n := |xs| - 1;
      var before := Firsts(r, xs[..n]);
      FirstsFindTheSame(g, r, asOf, xs[..n], room);
      FoundHasAll(g, r, asOf, {}, before, room);
      NothingFromRoot(g, r, asOf);
      assert xs == xs[..n] + [xs[n]];
      FoundStep(g, r, asOf, {}, xs[..n], xs[n], room);
      FoundStep(g, r, asOf, {}, before, xs[n], room);
    }
  }

  lemma NothingFromRoot(g: Graph, r: EntityId, asOf: Option<Time>)
    ensures NewFrom(g, r, asOf, r) == {}
  {
  }

  // ----- the turns at hop 1

  /** The rest of `ps` is queued, and behind it only ids at hop 2. */
  ghost predicate QueueAt(s: Search, ps: seq<EntityId>, k: nat) {
    && k <= |ps| && QueueLabelled(s) && |s.queue| >= |ps| - k && s.queue[..|ps| - k] == ps[k..]
    && (forall v | v in s.queue[|ps| - k..] :: s.depth[v] == 2)
  }

  /** The root is labelled 0, its neighbours 1 and what they found 2. */
  ghost predicate LabelsAt(ring: set<EntityId>, r: EntityId, found: set<EntityId>, depth: map<EntityId, nat>) {
    && depth.Keys == ring + found
    && (forall v | v in ring :: depth[v] == if v == r then 0 else 1)
    && (forall v | v in depth && v !in ring :: depth[v] == 2)
  }

  /** The search has expanded the first `k` of `ps`. */
  ghost predicate Reached(g: Graph, r: EntityId, asOf: Option<Time>, ps: seq<EntityId>, room: int, k: nat, s: Search) {
    QueueAt(s, ps, k) && LabelsAt(Ring(g, r, asOf), r, FoundFrom(g, r, asOf, {}, ps[..k], room), s.depth)
  }

  lemma {:induction false} FoundOutsideRing(
    g: Graph, r: EntityId, asOf: Option<Time>, base: set<EntityId>, xs: seq<EntityId>, room: int)
    requires base !! Ring(g, r, asOf)
    ensures FoundFrom(g, r, asOf, base, xs, room) !! Ring(g, r, asOf)
  {
    if xs == [] {
    } else {
      FoundOutsideRing(g, r, asOf, base, xs[..|xs| - 1], room);
    }
  }

  lemma SizeOf(g: Graph, r: EntityId, asOf: Option<Time>, ps: seq<EntityId>, room: int, k: nat, s: Search)
    requires Reached(g, r, asOf, ps, room, k, s)
    ensures |s.depth| == |Ring(g, r, asOf)| + |FoundFrom(g, r, asOf, {}, ps[..k], room)|
  {
    FoundOutsideRing(g, r, asOf, {}, ps[..k], room);
    hide Ring, FoundFrom;
    assert |s.depth| == |s.depth.Keys|;
  }

  lemma QueueAfter(s: Search, t: Search, found: seq<EntityId>, ps: seq<EntityId>, k: nat)
    requires k < |ps| && |s.queue| >= |ps| - k && s.queue[..|ps| - k] == ps[k..]
    requires t.queue == s.queue[1..] + found
    ensures |t.queue| >= |ps| - k - 1 && t.queue[..|ps| - k - 1] == ps[k + 1..]
    ensures t.queue[|ps| - k - 1..] == s.queue[|ps| - k..] + found
  {
    var m := |ps| - k;
    assert s.queue[1..] == s.queue[..m][1..] + s.queue[m..];
    assert s.queue[..m][1..] == ps[k + 1..];
  }

  lemma QueueHead(s: Search, ps: seq<EntityId>, k: nat)
    requires QueueAt(s, ps, k) && k < |ps|
    ensures s.queue != [] && s.queue[0] == ps[k] && ps[k] in s.depth
  {
    assert s.queue[0] == s.queue[..|ps| - k][0];
  }

  lemma QueueTurn(s: Search, t: Search, found: seq<EntityId>, ps: seq<EntityId>, k: nat, ns: seq<EntityId>)
    requires QueueAt(s, ps, k) && k < |ps| && s.queue != [] && Discovered(Taken(s), t, ns, 2, found)
    ensures QueueAt(t, ps, k + 1)
  {
    QueueAfter(s, t, found, ps, k);
    var m := |ps| - k;
    assert forall v | v in s.queue[m..] :: v in s.queue;
    assert forall v | v in s.queue[1..] :: v in s.queue;
  }

  lemma LabelsTurn(
    s: Search, t: Search, found: seq<EntityId>, ns: seq<EntityId>, ring: set<EntityId>, r: EntityId, met: set<EntityId>)
    requires s.queue != [] && LabelsAt(ring, r, met, s.depth) && Discovered(Taken(s), t, ns, 2, found)
    ensures LabelsAt(ring, r, met + ((set v | v in ns) - ring), t.depth)
  {
  }

  lemma HeadAtOne(s: Search, ring: set<EntityId>, r: EntityId, met: set<EntityId>, x: EntityId)
    requires LabelsAt(ring, r, met, s.depth) && x in ring && x != r
    ensures x in s.depth && s.depth[x] == 1
  {
  }

  lemma StepExpands(g: Graph, asOf: Option<Time>, s: Search) returns (found: seq<EntityId>)
    requires s.queue != [] && s.queue[0] in s.depth && s.depth[s.queue[0]] == 1
    ensures Discovered(Taken(s), Step(g, asOf, 2, s), Neighbors(g, s.queue[0], asOf), 2, found)
  {
    hide Discover, Neighbors, Discovered;
    found := ExpandDiscovers(g, asOf, s);
  }

  lemma NewMeans(g: Graph, r: EntityId, asOf: Option<Time>, x: EntityId)
    requires x != r
    ensures NewFrom(g, r, asOf, x) == (set v | v in Neighbors(g, x, asOf)) - Ring(g, r, asOf)
  {
    hide Neighbors, Ring;
  }

  lemma OneMoreTurn(
    g: Graph, r: EntityId, asOf: Option<Time>, ps: seq<EntityId>, room: int, k: nat, s: Search)
    requires Reached(g, r, asOf, ps, room, k, s) && k < |ps| && ps[k] in Ring(g, r, asOf) && ps[k] != r
    requires |FoundFrom(g, r, asOf, {}, ps[..k], room)| < room
    ensures s.queue != [] && s.queue[0] in s.depth && QueueLabelled(s)
    ensures Reached(g, r, asOf, ps, room, k + 1, Step(g, asOf, 2, s))
  {
    hide *;
    IsReached(g, r, asOf, ps, room, k, s);
    QueueHead(s, ps, k);
    var x, ring, met := ps[k], Ring(g, r, asOf), FoundFrom(g, r, asOf, {}, ps[..k], room);
    HeadAtOne(s, ring, r, met, x);
    var t, ns := Step(g, asOf, 2, s), Neighbors(g, x, asOf);
    var found := StepExpands(g, asOf, s);
    NewMeans(g, r, asOf, x);
    assert ps[..k + 1] == ps[..k] + [x];
    FoundStep(g, r, asOf, {}, ps[..k], x, room);
    QueueTurn(s, t, found, ps, k, ns);
    LabelsTurn(s, t, found, ns, ring, r, met);
    IsReached(g, r, asOf, ps, room, k + 1, t);
  }

  lemma IsReached(g: Graph, r: EntityId, asOf: Option<Time>, ps: seq<EntityId>, room: int, k: nat, s: Search)
    requires k <= |ps|
    ensures Reached(g, r, asOf, ps, room, k, s) <==>
            QueueAt(s, ps, k) && LabelsAt(Ring(g, r, asOf), r, FoundFrom(g, r, asOf, {}, ps[..k], room), s.depth)
    ensures QueueAt(s, ps, k) ==> QueueLabelled(s)
  {
    hide QueueLabelled, LabelsAt, Ring, FoundFrom;
  }

  /** With only ids at hop 2 left in the queue the search just empties it. */
  lemma {:induction false} OnlyPops(g: Graph, asOf: Option<Time>, maxNodes: int, s: Search)
    requires QueueLabelled(s) && forall v | v in s.queue :: s.depth[v] >= 2
    ensures Explore(g, asOf, 2, maxNodes, s).depth == s.depth
    decreases |s.queue|
  {
    if s.queue == [] || |s.depth| >= maxNodes {
    } else {
      var t := s.(queue := s.queue[1..]);
      assert forall v | v in t.queue :: v in s.queue;
      assert Step(g, asOf, 2, s) == t;
      StepProgress(g, asOf, 2, s);
      OnlyPops(g, asOf, maxNodes, t);
    }
  }

  lemma NoneLeft(s: Search, ps: seq<EntityId>)
    requires QueueAt(s, ps, |ps|)
    ensures forall v | v in s.queue :: s.depth[v] >= 2
  {
    assert s.queue[0..] == s.queue;
  }

  lemma {:induction false} TurnsAtHopOne(
    g: Graph, r: EntityId, asOf: Option<Time>, ps: seq<EntityId>, maxNodes: int, k: nat, s: Search)
    requires k <= |ps| && Reached(g, r, asOf, ps, maxNodes - |Ring(g, r, asOf)|, k, s)
    requires forall v | v in ps :: v in Ring(g, r, asOf) && v != r
    ensures QueueLabelled(s)
    ensures LabelsAt(Ring(g, r, asOf), r, FoundFrom(g, r, asOf, {}, ps, maxNodes - |Ring(g, r, asOf)|),
                     Explore(g, asOf, 2, maxNodes, s).depth)
    decreases |ps| - k
  {
    hide *;
    var room := maxNodes - |Ring(g, r, asOf)|;
    SizeOf(g, r, asOf, ps, room, k, s);
    IsReached(g, r, asOf, ps, room, k, s);
    if |FoundFrom(g, r, asOf, {}, ps[..k], room)| >= room {
      FullStays(g, r, asOf, ps, room, k);
      StopsAtOnce(g, asOf, maxNodes, s);
    } else if k == |ps| {
      assert ps[..k] == ps;
      NoneLeft(s, ps);
      OnlyPops(g, asOf, maxNodes, s);
    } else {
      assert ps[k] in ps;
      OneMoreTurn(g, r, asOf, ps, room, k, s);
      ExploreOn(g, asOf, maxNodes, s);
      TurnsAtHopOne(g, r, asOf, ps, maxNodes, k + 1, Step(g, asOf, 2, s));
    }
  }

  lemma StopsAtOnce(g: Graph, asOf: Option<Time>, maxNodes: int, s: Search)
    requires QueueLabelled(s) && |s.depth| >= maxNodes
    ensures Explore(g, asOf, 2, maxNodes, s) == s
  {
  }

  lemma ExploreOn(g: Graph, asOf: Option<Time>, maxNodes: int, s: Search)
    requires QueueLabelled(s) && s.queue != [] && |s.depth| < maxNodes
    ensures QueueLabelled(Step(g, asOf, 2, s))
    ensures Explore(g, asOf, 2, maxNodes, s) == Explore(g, asOf, 2, maxNodes, Step(g, asOf, 2, s))
  {
    StepProgress(g, asOf, 2, s);
  }

  /** Once there is no room, nothing more is found. */
  lemma {:induction false} FullStays(g: Graph, r: EntityId, asOf: Option<Time>, ps: seq<EntityId>, room: int, k: nat)
    requires k <= |ps| && |FoundFrom(g, r, asOf, {}, ps[..k], room)| >= room
    ensures FoundFrom(g, r, asOf, {}, ps, room) == FoundFrom(g, r, asOf, {}, ps[..k], room)
    decreases |ps| - k
  {
    hide NewFrom;
    if k == |ps| {
      assert ps[..k] == ps;
    } else {
      assert ps[..k + 1][..k] == ps[..k];
      FullStays(g, r, asOf, ps, room, k + 1);
    }
  }

  /** Hop 1 and hop 2 of every search of depth 2 with a bound of at least 2, cut short or not:
      hop 2 is what the neighbours of the root, in list order, find while there is room. */
  lemma HopTwoExactly(g: Graph, r: EntityId, asOf: Option<Time>, maxNodes: int)
    requires r in g.nodes && maxNodes >= 2
    ensures var h := NeighborsByHop(g, r, asOf, 2, maxNodes);
      && h.one == Ring(g, r, asOf) - {r}
      && h.two == FoundFrom(g, r, asOf, {}, Neighbors(g, r, asOf), maxNodes - |Ring(g, r, asOf)|)
  {
    hide *;
    var ns, room := Neighbors(g, r, asOf), maxNodes - |Ring(g, r, asOf)|;
    var ps := Firsts(r, ns);
    var s := Discover(Search(map[r := 0], [], {r}), ns, 1);
    RingHas(g, r, asOf);
    RootDiscovers(r, ns);
    FirstsMembers(r, ns);
    FirstsFindTheSame(g, r, asOf, ns, room);
    RootTurn(g, r, asOf, maxNodes);
    AfterRoot(g, r, asOf, ps, room, s);
    FoundOutsideRing(g, r, asOf, {}, ps, room);
    TurnsAtHopOne(g, r, asOf, ps, maxNodes, 0, s);
    HopsAtEnd(g, r, asOf, ps, room, maxNodes);
  }

  lemma RingHas(g: Graph, r: EntityId, asOf: Option<Time>)
    ensures r in Ring(g, r, asOf) && forall v | v in Neighbors(g, r, asOf) :: v in Ring(g, r, asOf)
  {
  }

  lemma HopsAtEnd(g: Graph, r: EntityId, asOf: Option<Time>, ps: seq<EntityId>, room: int, maxNodes: int)
    requires r in g.nodes
    requires LabelsAt(Ring(g, r, asOf), r, FoundFrom(g, r, asOf, {}, ps, room), SearchFrom(g, r, asOf, 2, maxNodes).depth)
    requires r in Ring(g, r, asOf) && FoundFrom(g, r, asOf, {}, ps, room) !! Ring(g, r, asOf)
    ensures var h := NeighborsByHop(g, r, asOf, 2, maxNodes);
      h.one == Ring(g, r, asOf) - {r} && h.two == FoundFrom(g, r, asOf, {}, ps, room)
  {
    hide Ring, FoundFrom, SearchFrom;
    HopsByRing(SearchFrom(g, r, asOf, 2, maxNodes).depth, r, Ring(g, r, asOf), FoundFrom(g, r, asOf, {}, ps, room));
  }

  lemma AfterRoot(g: Graph, r: EntityId, asOf: Option<Time>, ps: seq<EntityId>, room: int, s: Search)
    requires s.queue == ps && (forall v | v in ps :: v in Neighbors(g, r, asOf) && v != r)
    requires forall v :: v in s.depth <==> v == r || v in Neighbors(g, r, asOf)
    requires forall v | v in s.depth :: s.depth[v] == if v == r then 0 else 1
    ensures Reached(g, r, asOf, ps, room, 0, s)
  {
    hide Neighbors;
    assert ps[..0] == [] && ps[0..] == ps && s.queue[..|ps|] == ps && s.queue[|ps|..] == [];
    assert FoundFrom(g, r, asOf, {}, ps[..0], room) == {};
    assert s.depth.Keys == Ring(g, r, asOf);
  }

  lemma RootTurn(g: Graph, r: EntityId, asOf: Option<Time>, maxNodes: int)
    requires maxNodes >= 2
    ensures var s := Discover(Search(map[r := 0], [], {r}), Neighbors(g, r, asOf), 1);
      QueueLabelled(s) && SearchFrom(g, r, asOf, 2, maxNodes) == Explore(g, asOf, 2, maxNodes, s)
  {
    hide Explore, Discover, Neighbors;
    assert |Start(r).depth| == 1 by { assert Start(r).depth.Keys == {r}; }
    assert Taken(Start(r)) == Search(map[r := 0], [], {r});
    ExploreOn(g, asOf, maxNodes, Start(r));
  }

  lemma HopsByRing(depth: map<EntityId, nat>, r: EntityId, ring: set<EntityId>, found: set<EntityId>)
    requires r in ring && ring !! found && LabelsAt(ring, r, found, depth)
    ensures HopsOf(depth) == Hops(ring - {r}, found)
  {
  }
}
