/** When a search that may be cut short does not depend on the order of the adjacency lists. */
module CutOrder {
  import opened Options
  import opened GraphModel
  import opened SetSums
  import opened Traversal
  import opened TemporalCut
  import opened IngestionOrder
  import opened AssessmentOrder
  import opened EventUpdates
  import opened CrossMerchantRisk
  import opened CutSearch

  function Members(xs: seq<EntityId>): set<EntityId> { set v | v in xs }

  /** What all of `ps` find together. */
  ghost function FoundAll(g: Graph, r: EntityId, asOf: Option<Time>, ps: set<EntityId>): set<EntityId> {
    set x, v | x in ps && v in NewFrom(g, r, asOf, x) :: v
  }

  /** Whichever members of `all` are expanded until the room is filled, they find what all of
      them would: `ps` fills it with its last member `p` and not before. */
  ghost predicate Settled(
    g: Graph, r: EntityId, asOf: Option<Time>, base: set<EntityId>, all: set<EntityId>, room: int)
  {
    forall ps, p | ps <= all && p in ps && Fills(g, r, asOf, base, ps, p, room) ::
      base + FoundAll(g, r, asOf, ps) == base + FoundAll(g, r, asOf, all)
  }

  ghost predicate Fills(
    g: Graph, r: EntityId, asOf: Option<Time>, base: set<EntityId>, ps: set<EntityId>, p: EntityId, room: int)
  {
    |base + FoundAll(g, r, asOf, ps - {p})| < room <= |base + FoundAll(g, r, asOf, ps)|
  }

  // ----- what a list finds, as far as its order does not matter

  lemma FoundAllGrows(g: Graph, r: EntityId, asOf: Option<Time>, ps: set<EntityId>, qs: set<EntityId>)
    requires ps <= qs
    ensures FoundAll(g, r, asOf, ps) <= FoundAll(g, r, asOf, qs)
  {
    hide NewFrom;
  }

  lemma FoundAllWith(g: Graph, r: EntityId, asOf: Option<Time>, ps: set<EntityId>, p: EntityId)
    ensures FoundAll(g, r, asOf, ps + {p}) == FoundAll(g, r, asOf, ps) + NewFrom(g, r, asOf, p)
    ensures FoundAll(g, r, asOf, {}) == {}
  {
    hide NewFrom;
  }

  lemma {:induction false} FoundAtMost(
    g: Graph, r: EntityId, asOf: Option<Time>, base: set<EntityId>, xs: seq<EntityId>, room: int)
    ensures FoundFrom(g, r, asOf, base, xs, room) <= base + FoundAll(g, r, asOf, Members(xs))
  {
    hide NewFrom, FoundAll;
    if xs == [] {
    } else {
      var n := |xs| - 1;
      FoundAtMost(g, r, asOf, base, xs[..n], room);
      assert xs == xs[..n] + [xs[n]];
      assert Members(xs) == Members(xs[..n]) + {xs[n]};
      FoundAllWith(g, r, asOf, Members(xs[..n]), xs[n]);
    }
  }

  /** A list that does not fill the room finds everything. */
  lemma FoundWhileRoom(
    g: Graph, r: EntityId, asOf: Option<Time>, base: set<EntityId>, xs: seq<EntityId>, room: int)
    requires |FoundFrom(g, r, asOf, base, xs, room)| < room
    ensures FoundFrom(g, r, asOf, base, xs, room) == base + FoundAll(g, r, asOf, Members(xs))
  {
    FoundAtMost(g, r, asOf, base, xs, room);
    FoundHasAll(g, r, asOf, base, xs, room);
    hide NewFrom, FoundFrom;
  }

  lemma FoundIfRoom(
    g: Graph, r: EntityId, asOf: Option<Time>, base: set<EntityId>, xs: seq<EntityId>, room: int)
    requires |base + FoundAll(g, r, asOf, Members(xs))| < room
    ensures FoundFrom(g, r, asOf, base, xs, room) == base + FoundAll(g, r, asOf, Members(xs))
  {
    hide FoundFrom, FoundAll;
    FoundAtMost(g, r, asOf, base, xs, room);
    SubsetSize(FoundFrom(g, r, asOf, base, xs, room), base + FoundAll(g, r, asOf, Members(xs)));
    FoundWhileRoom(g, r, asOf, base, xs, room);
  }

  /** A list that does fill it stops with some of its members, the last of which fills it. */
  lemma {:induction false} StopsAt(
    g: Graph, r: EntityId, asOf: Option<Time>, base: set<EntityId>, xs: seq<EntityId>, room: int)
    returns (ps: set<EntityId>, p: EntityId)
    requires |base| < room <= |FoundFrom(g, r, asOf, base, xs, room)|
    ensures ps <= Members(xs) && p in ps && Fills(g, r, asOf, base, ps, p, room)
    ensures FoundFrom(g, r, asOf, base, xs, room) == base + FoundAll(g, r, asOf, ps)
  {
    hide NewFrom, FoundAll, FoundFrom;
    if xs == [] {
      NothingFound(g, r, asOf, base, room);
      assert false;
    }
    var n := |xs| - 1;
    assert xs == xs[..n] + [xs[n]];
    FoundStep(g, r, asOf, base, xs[..n], xs[n], room);
    var found := FoundFrom(g, r, asOf, base, xs[..n], room);
    assert Members(xs) == Members(xs[..n]) + {xs[n]};
    if |found| >= room {
      ps, p := StopsAt(g, r, asOf, base, xs[..n], room);
    } else {
      FoundWhileRoom(g, r, asOf, base, xs[..n], room);
      ps, p := Members(xs), xs[n];
      FoundAllWith(g, r, asOf, Members(xs[..n]), p);
      FoundAllGrows(g, r, asOf, ps - {p}, Members(xs[..n]));
      SubsetSize(base + FoundAll(g, r, asOf, ps - {p}), found);
      assert base + FoundAll(g, r, asOf, ps) == found + NewFrom(g, r, asOf, p);
    }
  }

  lemma SettledFinds(
    g: Graph, r: EntityId, asOf: Option<Time>, base: set<EntityId>, xs: seq<EntityId>, room: int)
    requires Settled(g, r, asOf, base, Members(xs), room) && |base| < room
    ensures FoundFrom(g, r, asOf, base, xs, room) == base + FoundAll(g, r, asOf, Members(xs))
  {
    hide FoundAll, FoundFrom, Fills;
    if |FoundFrom(g, r, asOf, base, xs, room)| < room {
      FoundWhileRoom(g, r, asOf, base, xs, room);
    } else {
      var ps, p := StopsAt(g, r, asOf, base, xs, room);
    }
  }

  lemma {:induction false} FoundTwice(
    g: Graph, r: EntityId, asOf: Option<Time>, base: set<EntityId>, xs: seq<EntityId>, ys: seq<EntityId>, room: int)
    ensures FoundFrom(g, r, asOf, base, xs + ys, room)
         == FoundFrom(g, r, asOf, FoundFrom(g, r, asOf, base, xs, room), ys, room)
  {
    hide NewFrom;
    if ys == [] {
      assert xs + ys == xs;
    } else {
      var n := |ys| - 1;
      assert (xs + ys)[..|xs + ys| - 1] == xs + ys[..n];
      FoundTwice(g, r, asOf, base, xs, ys[..n], room);
    }
  }

  lemma {:induction false} FullFindsNothing(
    g: Graph, r: EntityId, asOf: Option<Time>, base: set<EntityId>, xs: seq<EntityId>, room: int)
    requires |base| >= room
    ensures FoundFrom(g, r, asOf, base, xs, room) == base
  {
    if xs == [] {
    } else {
      FullFindsNothing(g, r, asOf, base, xs[..|xs| - 1], room);
    }
  }

  /** Expanding one id, however often it is listed. */
  lemma {:induction false} FoundByOne(
    g: Graph, r: EntityId, asOf: Option<Time>, base: set<EntityId>, xs: seq<EntityId>, p: EntityId, room: int)
    requires xs != [] && (forall v | v in xs :: v == p) && |base| < room
    ensures FoundFrom(g, r, asOf, base, xs, room) == base + NewFrom(g, r, asOf, p)
  {
    hide NewFrom;
    var n := |xs| - 1;
    assert xs[n] in xs && forall v | v in xs[..n] :: v in xs;
    if n > 0 {
      FoundByOne(g, r, asOf, base, xs[..n], p, room);
    }
  }

  // ----- the two lists of the root

  function Far(g: Graph, k: EdgeId, r: EntityId): EntityId { if k in g.edges then OtherEnd(g.edges[k], r) else r }

  /** The far ends of the visible edges of a list. */
  function FarEnds(g: Graph, ks: seq<EdgeId>, r: EntityId, asOf: Option<Time>): seq<EntityId> {
    Ends(g, VisibleOf(g, ks, asOf), r)
  }

  function OutEnds(g: Graph, r: EntityId, asOf: Option<Time>): seq<EntityId> {
    FarEnds(g, Listed(g.outgoing, r), r, asOf)
  }

  function InEnds(g: Graph, r: EntityId, asOf: Option<Time>): seq<EntityId> {
    FarEnds(g, Listed(g.incoming, r), r, asOf)
  }

  lemma FarEndsAppend(g: Graph, a: seq<EdgeId>, b: seq<EdgeId>, r: EntityId, asOf: Option<Time>)
    ensures FarEnds(g, a + b, r, asOf) == FarEnds(g, a, r, asOf) + FarEnds(g, b, r, asOf)
  {
    VisibleAppend(g, a, b, asOf);
    hide VisibleOf;
    var x, y := VisibleOf(g, a, asOf), VisibleOf(g, b, asOf);
    assert Ends(g, x + y, r) == Ends(g, x, r) + Ends(g, y, r);
  }

  /** Outgoing edges always come first. */
  lemma NeighborsInTwoParts(g: Graph, r: EntityId, asOf: Option<Time>)
    ensures Neighbors(g, r, asOf) == OutEnds(g, r, asOf) + InEnds(g, r, asOf)
  {
    FarEndsAppend(g, Listed(g.outgoing, r), Listed(g.incoming, r), r, asOf);
    hide VisibleOf, Listed, Ends;
  }

  lemma FarEndsMember(g: Graph, ks: seq<EdgeId>, r: EntityId, asOf: Option<Time>, v: EntityId)
    ensures v in FarEnds(g, ks, r, asOf) <==> exists k :: k in ks && Shown(g, k, asOf) && Far(g, k, r) == v
  {
    var vs := VisibleOf(g, ks, asOf);
    forall k ensures k in vs <==> k in ks && Shown(g, k, asOf) { VisibleMember(g, ks, asOf, k); }
    hide VisibleOf;
    if v in Ends(g, vs, r) {
      var i :| 0 <= i < |vs| && Ends(g, vs, r)[i] == v;
      assert vs[i] in vs && Far(g, vs[i], r) == v;
    }
    if k :| k in ks && Shown(g, k, asOf) && Far(g, k, r) == v {
      assert k in vs;
      var i :| 0 <= i < |vs| && vs[i] == k;
      assert Ends(g, vs, r)[i] == v;
    }
  }

  // ----- the exact condition

  /** Lists of `outs` and then of `ins` find the same in every order: there is no room, or `outs`
      is settled and either fills the room or leaves it to settled `ins`. */
  ghost predicate Free(
    g: Graph, r: EntityId, asOf: Option<Time>, outs: set<EntityId>, ins: set<EntityId>, room: int)
  {
    || room <= 0
    || (&& Settled(g, r, asOf, {}, outs, room)
        && (|FoundAll(g, r, asOf, outs)| >= room || Settled(g, r, asOf, FoundAll(g, r, asOf, outs), ins, room)))
  }

  /** What every order then finds. */
  ghost function Result(
    g: Graph, r: EntityId, asOf: Option<Time>, outs: set<EntityId>, ins: set<EntityId>, room: int): set<EntityId>
  {
    var first := FoundAll(g, r, asOf, outs);
    if room <= 0 then {} else if |first| >= room then first else first + FoundAll(g, r, asOf, ins)
  }

  lemma FreeFinds(g: Graph, r: EntityId, asOf: Option<Time>, outs: seq<EntityId>, ins: seq<EntityId>, room: int)
    requires Free(g, r, asOf, Members(outs), Members(ins), room)
    ensures FoundFrom(g, r, asOf, {}, outs + ins, room) == Result(g, r, asOf, Members(outs), Members(ins), room)
  {
    hide FoundFrom, FoundAll, Settled, Members;
    if room <= 0 {
      FullFindsNothing(g, r, asOf, {}, outs + ins, room);
    } else {
      FoundTwice(g, r, asOf, {}, outs, ins, room);
      SettledFinds(g, r, asOf, {}, outs, room);
      var first := FoundAll(g, r, asOf, Members(outs));
      assert {} + first == first;
      if |first| >= room {
        FullFindsNothing(g, r, asOf, first, ins, room);
      } else {
        SettledFinds(g, r, asOf, first, ins, room);
      }
    }
  }

  /** Hop 2 of a search from `r` does not depend on list order: `r` is no node, or the ids at the
      far ends of its outgoing and incoming edges are free. */
  ghost predicate OrderFree(g: Graph, r: EntityId, asOf: Option<Time>, maxNodes: int) {
    || r !in g.nodes
    || Free(g, r, asOf, Members(OutEnds(g, r, asOf)), Members(InEnds(g, r, asOf)), maxNodes - |Ring(g, r, asOf)|)
  }

  // ----- graphs that differ only in list order

  lemma SameGraphCoherent(g: Graph, h: Graph)
    requires Coherent(g) && SameGraph(g, h)
    ensures Coherent(h)
  {
    forall x, k ensures multiset(Listed(h.outgoing, x))[k] == multiset(Listed(g.outgoing, x))[k] {
    }
    forall x, k ensures multiset(Listed(h.incoming, x))[k] == multiset(Listed(g.incoming, x))[k] {
    }
  }

  lemma SameFarEnds(g: Graph, h: Graph, ks: seq<EdgeId>, ls: seq<EdgeId>, r: EntityId, asOf: Option<Time>)
    requires g.edges == h.edges && multiset(ks) == multiset(ls)
    ensures Members(FarEnds(g, ks, r, asOf)) == Members(FarEnds(h, ls, r, asOf))
  {
    hide FarEnds;
    forall k ensures k in ks <==> k in ls {
      assert k in ks <==> k in multiset(ks);
      assert k in ls <==> k in multiset(ls);
    }
    forall v ensures v in FarEnds(g, ks, r, asOf) <==> v in FarEnds(h, ls, r, asOf) {
      FarEndsMember(g, ks, r, asOf, v);
      FarEndsMember(h, ls, r, asOf, v);
    }
  }

  lemma SameMembers(g: Graph, h: Graph, r: EntityId, asOf: Option<Time>, x: EntityId)
    requires Coherent(g) && Coherent(h) && g.edges == h.edges
    ensures Members(Neighbors(g, x, asOf)) == Members(Neighbors(h, x, asOf))
  {
    hide Coherent, Neighbors, Linked;
    forall v ensures v in Neighbors(g, x, asOf) <==> v in Neighbors(h, x, asOf) {
      NeighborsAreLinked(g, x, v, asOf);
      NeighborsAreLinked(h, x, v, asOf);
      SameLinks(g, h, asOf, x, v);
    }
  }

  lemma SameFinds(g: Graph, h: Graph, r: EntityId, asOf: Option<Time>)
    requires Coherent(g) && Coherent(h) && g.edges == h.edges
    ensures Ring(g, r, asOf) == Ring(h, r, asOf)
    ensures forall x :: NewFrom(g, r, asOf, x) == NewFrom(h, r, asOf, x)
    ensures forall ps :: FoundAll(g, r, asOf, ps) == FoundAll(h, r, asOf, ps)
  {
    hide Coherent, Neighbors;
    SameMembers(g, h, r, asOf, r);
    assert Ring(g, r, asOf) == {r} + Members(Neighbors(g, r, asOf));
    assert Ring(h, r, asOf) == {r} + Members(Neighbors(h, r, asOf));
    forall x ensures NewFrom(g, r, asOf, x) == NewFrom(h, r, asOf, x) {
      SameMembers(g, h, r, asOf, x);
      assert (set v | v in Neighbors(g, x, asOf)) == Members(Neighbors(g, x, asOf));
      assert (set v | v in Neighbors(h, x, asOf)) == Members(Neighbors(h, x, asOf));
    }
    hide NewFrom;
    forall ps ensures FoundAll(g, r, asOf, ps) == FoundAll(h, r, asOf, ps) {
    }
  }

  lemma SameSettled(g: Graph, h: Graph, r: EntityId, asOf: Option<Time>, base: set<EntityId>, all: set<EntityId>, room: int)
    requires forall ps :: FoundAll(g, r, asOf, ps) == FoundAll(h, r, asOf, ps)
    ensures Settled(g, r, asOf, base, all, room) ==> Settled(h, r, asOf, base, all, room)
  {
    hide FoundAll;
    if Settled(g, r, asOf, base, all, room) {
      forall ps, p | ps <= all && p in ps && Fills(h, r, asOf, base, ps, p, room)
        ensures base + FoundAll(h, r, asOf, ps) == base + FoundAll(h, r, asOf, all)
      {
        assert Fills(g, r, asOf, base, ps, p, room);
      }
    }
  }

  lemma SameFree(
    g: Graph, h: Graph, r: EntityId, asOf: Option<Time>, outs: set<EntityId>, ins: set<EntityId>, room: int)
    requires forall ps :: FoundAll(g, r, asOf, ps) == FoundAll(h, r, asOf, ps)
    ensures Free(g, r, asOf, outs, ins, room) ==> Free(h, r, asOf, outs, ins, room)
    ensures Result(g, r, asOf, outs, ins, room) == Result(h, r, asOf, outs, ins, room)
  {
    hide FoundAll, Settled;
    SameSettled(g, h, r, asOf, {}, outs, room);
    SameSettled(g, h, r, asOf, FoundAll(g, r, asOf, outs), ins, room);
  }

  lemma SameEnds(g: Graph, h: Graph, r: EntityId, asOf: Option<Time>)
    requires SameGraph(g, h)
    ensures Members(OutEnds(g, r, asOf)) == Members(OutEnds(h, r, asOf))
    ensures Members(InEnds(g, r, asOf)) == Members(InEnds(h, r, asOf))
  {
    hide Members, FarEnds, Listed;
    SameFarEnds(g, h, Listed(g.outgoing, r), Listed(h.outgoing, r), r, asOf);
    SameFarEnds(g, h, Listed(g.incoming, r), Listed(h.incoming, r), r, asOf);
  }

  lemma SameNodes(g: Graph, h: Graph)
    requires SameGraph(g, h)
    ensures g.nodes == h.nodes && g.edges == h.edges
  {
  }

  lemma SmallBound(g: Graph, r: EntityId, asOf: Option<Time>, maxNodes: int)
    requires r !in g.nodes || maxNodes < 2
    ensures NeighborsByHop(g, r, asOf, 2, maxNodes) == Hops({}, {})
  {
    if r in g.nodes {
      assert Start(r).depth.Keys == {r};
      assert |Start(r).depth| == 1;
      assert SearchFrom(g, r, asOf, 2, maxNodes) == Start(r);
    }
  }

  /** Every graph with the same nodes, edges and adjacency lists up to order answers alike. */
  ghost predicate OrderBlind(g: Graph, r: EntityId, asOf: Option<Time>, maxNodes: int) {
    forall h | SameGraph(g, h) ::
      NeighborsByHop(h, r, asOf, 2, maxNodes) == NeighborsByHop(g, r, asOf, 2, maxNodes)
  }

  lemma FreeAnswersAlike(g: Graph, h: Graph, r: EntityId, asOf: Option<Time>, maxNodes: int)
    requires Coherent(g) && SameGraph(g, h) && r in g.nodes && maxNodes >= 2 && OrderFree(g, r, asOf, maxNodes)
    ensures NeighborsByHop(h, r, asOf, 2, maxNodes) == NeighborsByHop(g, r, asOf, 2, maxNodes)
  {
    hide *;
    SameGraphCoherent(g, h);
    SameNodes(g, h);
    SameEnds(g, h, r, asOf);
    SameFinds(g, h, r, asOf);
    OrderFreeMeans(g, r, asOf, maxNodes);
    var room := maxNodes - |Ring(g, r, asOf)|;
    SameFree(g, h, r, asOf, Members(OutEnds(g, r, asOf)), Members(InEnds(g, r, asOf)), room);
    NeighborsInTwoParts(g, r, asOf);
    NeighborsInTwoParts(h, r, asOf);
    FreeFinds(g, r, asOf, OutEnds(g, r, asOf), InEnds(g, r, asOf), room);
    FreeFinds(h, r, asOf, OutEnds(h, r, asOf), InEnds(h, r, asOf), room);
    HopTwoExactly(g, r, asOf, maxNodes);
    HopTwoExactly(h, r, asOf, maxNodes);
  }

  lemma OrderFreeMeans(g: Graph, r: EntityId, asOf: Option<Time>, maxNodes: int)
    requires r in g.nodes
    ensures OrderFree(g, r, asOf, maxNodes) <==>
            Free(g, r, asOf, Members(OutEnds(g, r, asOf)), Members(InEnds(g, r, asOf)), maxNodes - |Ring(g, r, asOf)|)
  {
    hide Free, Members, OutEnds, InEnds, Ring;
  }

  lemma FreeIsBlind(g: Graph, r: EntityId, asOf: Option<Time>, maxNodes: int)
    requires Coherent(g) && OrderFree(g, r, asOf, maxNodes)
    ensures OrderBlind(g, r, asOf, maxNodes)
  {
    hide Coherent, SameGraph, NeighborsByHop, OrderFree;
    forall h | SameGraph(g, h)
      ensures NeighborsByHop(h, r, asOf, 2, maxNodes) == NeighborsByHop(g, r, asOf, 2, maxNodes)
    {
      SameNodes(g, h);
      if r !in g.nodes || maxNodes < 2 {
        SmallBound(g, r, asOf, maxNodes);
        SmallBound(h, r, asOf, maxNodes);
      } else {
        FreeAnswersAlike(g, h, r, asOf, maxNodes);
      }
    }
  }

  // ----- otherwise two list orders tell

  /** The edges of a list with a far end among `vs`. */
  function Keep(g: Graph, ks: seq<EdgeId>, r: EntityId, vs: set<EntityId>): seq<EdgeId> {
    if ks == [] then []
    else
      var n := |ks| - 1;
      var rest := Keep(g, ks[..n], r, vs);
      if Far(g, ks[n], r) in vs then rest + [ks[n]] else rest
  }

  lemma {:induction false} KeepMember(g: Graph, ks: seq<EdgeId>, r: EntityId, vs: set<EntityId>, k: EdgeId)
    ensures k in Keep(g, ks, r, vs) <==> k in ks && Far(g, k, r) in vs
  {
    hide Far;
    if ks == [] {
    } else {
      var n := |ks| - 1;
      KeepMember(g, ks[..n], r, vs, k);
      assert ks == ks[..n] + [ks[n]];
    }
  }

  lemma KeptEnds(g: Graph, ks: seq<EdgeId>, r: EntityId, asOf: Option<Time>, vs: set<EntityId>)
    ensures Members(FarEnds(g, Keep(g, ks, r, vs), r, asOf)) == Members(FarEnds(g, ks, r, asOf)) * vs
  {
    hide FarEnds, Shown, Far, Keep;
    forall v ensures v in FarEnds(g, Keep(g, ks, r, vs), r, asOf) <==> v in FarEnds(g, ks, r, asOf) && v in vs {
      FarEndsMember(g, Keep(g, ks, r, vs), r, asOf, v);
      FarEndsMember(g, ks, r, asOf, v);
      forall k ensures k in Keep(g, ks, r, vs) <==> k in ks && Far(g, k, r) in vs { KeepMember(g, ks, r, vs, k); }
    }
  }

  /** The far ends of all edges of a list, visible or not. */
  function AllFar(g: Graph, ks: seq<EdgeId>, r: EntityId): set<EntityId> { set k | k in ks :: Far(g, k, r) }

  /** The list with the edges to `first` in front, then those to `next`, then the rest. */
  function Sorted(g: Graph, ks: seq<EdgeId>, r: EntityId, first: set<EntityId>, next: set<EntityId>): seq<EdgeId> {
    Keep(g, ks, r, first) + Keep(g, ks, r, next) + Keep(g, ks, r, AllFar(g, ks, r) - first - next)
  }

  lemma {:induction false} KeepsAll(
    g: Graph, ks: seq<EdgeId>, r: EntityId, a: set<EntityId>, b: set<EntityId>, c: set<EntityId>)
    requires a !! b && a !! c && b !! c && AllFar(g, ks, r) <= a + b + c
    ensures multiset(ks) == multiset(Keep(g, ks, r, a)) + multiset(Keep(g, ks, r, b)) + multiset(Keep(g, ks, r, c))
  {
    hide Far;
    if ks == [] {
    } else {
      var n := |ks| - 1;
      assert ks == ks[..n] + [ks[n]];
      assert ks[n] in ks && Far(g, ks[n], r) in AllFar(g, ks, r);
      assert AllFar(g, ks[..n], r) <= AllFar(g, ks, r);
      KeepsAll(g, ks[..n], r, a, b, c);
      hide Keep, AllFar;
    }
  }

  lemma SortedSame(g: Graph, ks: seq<EdgeId>, r: EntityId, first: set<EntityId>, next: set<EntityId>)
    requires first !! next
    ensures multiset(Sorted(g, ks, r, first, next)) == multiset(ks)
  {
    hide AllFar, Keep;
    KeepsAll(g, ks, r, first, next, AllFar(g, ks, r) - first - next);
  }

  lemma SortedEnds(g: Graph, ks: seq<EdgeId>, r: EntityId, asOf: Option<Time>, first: set<EntityId>, next: set<EntityId>)
    returns (rest: seq<EntityId>)
    ensures FarEnds(g, Sorted(g, ks, r, first, next), r, asOf)
         == FarEnds(g, Keep(g, ks, r, first), r, asOf) + FarEnds(g, Keep(g, ks, r, next), r, asOf) + rest
  {
    hide AllFar, Keep, FarEnds;
    var a, b, c := Keep(g, ks, r, first), Keep(g, ks, r, next), Keep(g, ks, r, AllFar(g, ks, r) - first - next);
    FarEndsAppend(g, a, b, r, asOf);
    FarEndsAppend(g, a + b, c, r, asOf);
    rest := FarEnds(g, c, r, asOf);
  }

  /** With `ps` in front and `p` last among them, the list finds what `ps` finds and stops. */
  lemma StopsAfter(
    g: Graph, r: EntityId, asOf: Option<Time>, base: set<EntityId>, ks: seq<EdgeId>, room: int,
    ps: set<EntityId>, p: EntityId)
    requires ps <= Members(FarEnds(g, ks, r, asOf)) && p in ps && Fills(g, r, asOf, base, ps, p, room)
    ensures FoundFrom(g, r, asOf, base, FarEnds(g, Sorted(g, ks, r, ps - {p}, {p}), r, asOf), room)
         == base + FoundAll(g, r, asOf, ps)
  {
    hide *;
    FillsMeans(g, r, asOf, base, ps, p, room);
    var a, b := FarEnds(g, Keep(g, ks, r, ps - {p}), r, asOf), FarEnds(g, Keep(g, ks, r, {p}), r, asOf);
    var rest := SortedEnds(g, ks, r, asOf, ps - {p}, {p});
    KeptEnds(g, ks, r, asOf, ps - {p});
    KeptEnds(g, ks, r, asOf, {p});
    assert Members(FarEnds(g, ks, r, asOf)) * (ps - {p}) == ps - {p};
    assert Members(FarEnds(g, ks, r, asOf)) * {p} == {p};
    OnlyMember(b, p);
    FoundIfRoom(g, r, asOf, base, a, room);
    var found := base + FoundAll(g, r, asOf, ps - {p});
    FoundByOne(g, r, asOf, found, b, p, room);
    FoundAllWith(g, r, asOf, ps - {p}, p);
    assert ps - {p} + {p} == ps;
    var full := base + FoundAll(g, r, asOf, ps);
    assert found + NewFrom(g, r, asOf, p) == full;
    FoundTwice(g, r, asOf, base, a, b, room);
    FoundTwice(g, r, asOf, base, a + b, rest, room);
    FullFindsNothing(g, r, asOf, full, rest, room);
  }

  lemma FillsMeans(
    g: Graph, r: EntityId, asOf: Option<Time>, base: set<EntityId>, ps: set<EntityId>, p: EntityId, room: int)
    requires Fills(g, r, asOf, base, ps, p, room)
    ensures |base + FoundAll(g, r, asOf, ps - {p})| < room <= |base + FoundAll(g, r, asOf, ps)|
  {
    hide FoundAll;
  }

  lemma OnlyMember(xs: seq<EntityId>, p: EntityId)
    requires Members(xs) == {p}
    ensures xs != [] && forall v | v in xs :: v == p
  {
    assert p in Members(xs);
    forall v | v in xs ensures v == p { assert v in Members(xs); }
  }

  lemma IsMember(xs: seq<EntityId>, v: EntityId)
    ensures v in Members(xs) <==> v in xs
  {
  }

  /** With `q` in front, the list finds what `q` finds. */
  lemma FindsFrom(
    g: Graph, r: EntityId, asOf: Option<Time>, base: set<EntityId>, ks: seq<EdgeId>, room: int, q: EntityId)
    requires q in FarEnds(g, ks, r, asOf) && |base| < room
    ensures NewFrom(g, r, asOf, q) <= FoundFrom(g, r, asOf, base, FarEnds(g, Sorted(g, ks, r, {q}, {}), r, asOf), room)
  {
    hide *;
    var a, b := FarEnds(g, Keep(g, ks, r, {q}), r, asOf), FarEnds(g, Keep(g, ks, r, {}), r, asOf);
    var rest := SortedEnds(g, ks, r, asOf, {q}, {});
    KeptEnds(g, ks, r, asOf, {q});
    IsMember(FarEnds(g, ks, r, asOf), q);
    assert Members(FarEnds(g, ks, r, asOf)) * {q} == {q};
    OnlyMember(a, q);
    FoundByOne(g, r, asOf, base, a, q, room);
    assert a + b + rest == a + (b + rest);
    FoundTwice(g, r, asOf, base, a, b + rest, room);
    FoundHasAll(g, r, asOf, base + NewFrom(g, r, asOf, q), b + rest, room);
  }

  /** An unsettled list has two orders of which only one finds some id, and the other is full. */
  lemma UnsettledTells(g: Graph, r: EntityId, asOf: Option<Time>, base: set<EntityId>, ks: seq<EdgeId>, room: int)
    returns (ls: seq<EdgeId>, ms: seq<EdgeId>, z: EntityId)
    requires |base| < room && !Settled(g, r, asOf, base, Members(FarEnds(g, ks, r, asOf)), room)
    ensures multiset(ls) == multiset(ks) == multiset(ms)
    ensures |FoundFrom(g, r, asOf, base, FarEnds(g, ls, r, asOf), room)| >= room
    ensures z !in FoundFrom(g, r, asOf, base, FarEnds(g, ls, r, asOf), room)
    ensures z in FoundFrom(g, r, asOf, base, FarEnds(g, ms, r, asOf), room)
  {
    hide *;
    var all := Members(FarEnds(g, ks, r, asOf));
    var ps, p, q;
    ps, p, q, z := Unsettled(g, r, asOf, base, all, room);
    IsMember(FarEnds(g, ks, r, asOf), q);
    FillsMeans(g, r, asOf, base, ps, p, room);
    ls, ms := Sorted(g, ks, r, ps - {p}, {p}), Sorted(g, ks, r, {q}, {});
    SortedSame(g, ks, r, ps - {p}, {p});
    SortedSame(g, ks, r, {q}, {});
    StopsAfter(g, r, asOf, base, ks, room, ps, p);
    FindsFrom(g, r, asOf, base, ks, room, q);
  }

  /** `ps` fills the room with `p` and does not find everything. */
  ghost predicate Misses(
    g: Graph, r: EntityId, asOf: Option<Time>, base: set<EntityId>, all: set<EntityId>, ps: set<EntityId>, p: EntityId,
    room: int)
  {
    && ps <= all && p in ps && Fills(g, r, asOf, base, ps, p, room)
    && base + FoundAll(g, r, asOf, ps) != base + FoundAll(g, r, asOf, all)
  }

  lemma Unsettled(g: Graph, r: EntityId, asOf: Option<Time>, base: set<EntityId>, all: set<EntityId>, room: int)
    returns (ps: set<EntityId>, p: EntityId, q: EntityId, z: EntityId)
    requires !Settled(g, r, asOf, base, all, room)
    ensures ps <= all && p in ps && Fills(g, r, asOf, base, ps, p, room)
    ensures q in all && z in NewFrom(g, r, asOf, q) && z !in base + FoundAll(g, r, asOf, ps)
  {
    hide Fills, NewFrom;
    if forall ps, p :: !Misses(g, r, asOf, base, all, ps, p, room) {
      forall ps, p | ps <= all && p in ps && Fills(g, r, asOf, base, ps, p, room)
        ensures base + FoundAll(g, r, asOf, ps) == base + FoundAll(g, r, asOf, all)
      {
        assert !Misses(g, r, asOf, base, all, ps, p, room);
      }
      assert false;
    }
    ps :| exists p :: Misses(g, r, asOf, base, all, ps, p, room);
    p :| Misses(g, r, asOf, base, all, ps, p, room);
    FoundAllGrows(g, r, asOf, ps, all);
    z :| z in FoundAll(g, r, asOf, all) && z !in base + FoundAll(g, r, asOf, ps);
    q :| q in all && z in NewFrom(g, r, asOf, q);
  }

  // ----- the graph with a list reordered

  function WithOut(g: Graph, r: EntityId, ks: seq<EdgeId>): Graph { g.(outgoing := g.outgoing[r := ks]) }
  function WithIn(g: Graph, r: EntityId, ks: seq<EdgeId>): Graph { g.(incoming := g.incoming[r := ks]) }

  lemma ReorderedOut(g: Graph, r: EntityId, asOf: Option<Time>, ks: seq<EdgeId>)
    requires multiset(ks) == multiset(Listed(g.outgoing, r))
    ensures SameGraph(g, WithOut(g, r, ks))
    ensures OutEnds(WithOut(g, r, ks), r, asOf) == FarEnds(WithOut(g, r, ks), ks, r, asOf)
    ensures InEnds(WithOut(g, r, ks), r, asOf) == FarEnds(WithOut(g, r, ks), Listed(g.incoming, r), r, asOf)
  {
    hide FarEnds;
  }

  lemma ReorderedIn(g: Graph, r: EntityId, asOf: Option<Time>, ks: seq<EdgeId>)
    requires multiset(ks) == multiset(Listed(g.incoming, r))
    ensures SameGraph(g, WithIn(g, r, ks))
    ensures OutEnds(WithIn(g, r, ks), r, asOf) == FarEnds(WithIn(g, r, ks), Listed(g.outgoing, r), r, asOf)
    ensures InEnds(WithIn(g, r, ks), r, asOf) == FarEnds(WithIn(g, r, ks), ks, r, asOf)
  {
    hide FarEnds;
  }

  lemma {:induction false} VisibleBySameEdges(g: Graph, h: Graph, ks: seq<EdgeId>, asOf: Option<Time>)
    requires g.edges == h.edges
    ensures VisibleOf(g, ks, asOf) == VisibleOf(h, ks, asOf)
  {
    if ks == [] {
    } else {
      VisibleBySameEdges(g, h, ks[..|ks| - 1], asOf);
    }
  }

  lemma EndsBySameEdges(g: Graph, h: Graph, ks: seq<EdgeId>, r: EntityId, asOf: Option<Time>)
    requires g.edges == h.edges
    ensures FarEnds(g, ks, r, asOf) == FarEnds(h, ks, r, asOf)
  {
    VisibleBySameEdges(g, h, ks, asOf);
    hide VisibleOf;
    var vs := VisibleOf(g, ks, asOf);
    assert Ends(g, vs, r) == Ends(h, vs, r);
  }

  lemma {:induction false} FoundBySameEdges(
    g: Graph, h: Graph, r: EntityId, asOf: Option<Time>, base: set<EntityId>, xs: seq<EntityId>, room: int)
    requires forall x :: NewFrom(g, r, asOf, x) == NewFrom(h, r, asOf, x)
    ensures FoundFrom(g, r, asOf, base, xs, room) == FoundFrom(h, r, asOf, base, xs, room)
  {
    hide NewFrom;
    if xs == [] {
    } else {
      FoundBySameEdges(g, h, r, asOf, base, xs[..|xs| - 1], room);
    }
  }

  /** Hop 2 of a graph equal up to list order, in terms of `g` and the lists of the root. */
  lemma HopTwoByLists(
    g: Graph, h: Graph, r: EntityId, asOf: Option<Time>, maxNodes: int, outs: seq<EdgeId>, ins: seq<EdgeId>)
    requires Coherent(g) && SameGraph(g, h) && r in g.nodes && maxNodes >= 2
    requires OutEnds(h, r, asOf) == FarEnds(h, outs, r, asOf) && InEnds(h, r, asOf) == FarEnds(h, ins, r, asOf)
    ensures NeighborsByHop(h, r, asOf, 2, maxNodes).two
         == FoundFrom(g, r, asOf, {}, FarEnds(g, outs, r, asOf) + FarEnds(g, ins, r, asOf), maxNodes - |Ring(g, r, asOf)|)
  {
    hide *;
    SameGraphCoherent(g, h);
    SameNodes(g, h);
    SameFinds(g, h, r, asOf);
    NeighborsInTwoParts(h, r, asOf);
    EndsBySameEdges(g, h, outs, r, asOf);
    EndsBySameEdges(g, h, ins, r, asOf);
    HopTwoExactly(h, r, asOf, maxNodes);
    FoundBySameEdges(g, h, r, asOf, {}, FarEnds(g, outs, r, asOf) + FarEnds(g, ins, r, asOf), maxNodes - |Ring(g, r, asOf)|);
  }

  lemma UnfreeMeans(g: Graph, r: EntityId, asOf: Option<Time>, outs: set<EntityId>, ins: set<EntityId>, room: int)
    requires !Free(g, r, asOf, outs, ins, room)
    ensures room > 0
    ensures || !Settled(g, r, asOf, {}, outs, room)
            || (|FoundAll(g, r, asOf, outs)| < room && !Settled(g, r, asOf, FoundAll(g, r, asOf, outs), ins, room))
  {
    hide Settled, FoundAll;
  }

  /** Two graphs equal to `g` up to list order that give different hop sets. */
  ghost predicate Tell(g: Graph, h: Graph, i: Graph, r: EntityId, asOf: Option<Time>, maxNodes: int) {
    && SameGraph(g, h) && SameGraph(g, i)
    && NeighborsByHop(h, r, asOf, 2, maxNodes).two != NeighborsByHop(i, r, asOf, 2, maxNodes).two
  }

  lemma OutgoingTell(g: Graph, r: EntityId, asOf: Option<Time>, maxNodes: int) returns (h: Graph, i: Graph)
    requires Coherent(g) && r in g.nodes && maxNodes - |Ring(g, r, asOf)| > 0 && maxNodes >= 2
    requires !Settled(g, r, asOf, {}, Members(FarEnds(g, Listed(g.outgoing, r), r, asOf)), maxNodes - |Ring(g, r, asOf)|)
    ensures Tell(g, h, i, r, asOf, maxNodes)
  {
    hide Coherent, SameGraph, NeighborsByHop, Ring, Settled, FoundFrom, FarEnds, Members, WithOut, Listed, OutEnds, InEnds;
    var room, ins := maxNodes - |Ring(g, r, asOf)|, Listed(g.incoming, r);
    var ls, ms, z := UnsettledTells(g, r, asOf, {}, Listed(g.outgoing, r), room);
    h, i := WithOut(g, r, ls), WithOut(g, r, ms);
    ReorderedOut(g, r, asOf, ls);
    ReorderedOut(g, r, asOf, ms);
    HopTwoByLists(g, h, r, asOf, maxNodes, ls, ins);
    HopTwoByLists(g, i, r, asOf, maxNodes, ms, ins);
    var a, b, c := FarEnds(g, ls, r, asOf), FarEnds(g, ms, r, asOf), FarEnds(g, ins, r, asOf);
    FoundTwice(g, r, asOf, {}, a, c, room);
    FoundTwice(g, r, asOf, {}, b, c, room);
    FullFindsNothing(g, r, asOf, FoundFrom(g, r, asOf, {}, a, room), c, room);
    FoundHasAll(g, r, asOf, FoundFrom(g, r, asOf, {}, b, room), c, room);
  }

  lemma IncomingTell(g: Graph, r: EntityId, asOf: Option<Time>, maxNodes: int) returns (h: Graph, i: Graph)
    requires Coherent(g) && r in g.nodes && maxNodes >= 2
    requires var first := FoundAll(g, r, asOf, Members(FarEnds(g, Listed(g.outgoing, r), r, asOf)));
      && |first| < maxNodes - |Ring(g, r, asOf)|
      && !Settled(g, r, asOf, first, Members(FarEnds(g, Listed(g.incoming, r), r, asOf)), maxNodes - |Ring(g, r, asOf)|)
    ensures Tell(g, h, i, r, asOf, maxNodes)
  {
    hide Coherent, SameGraph, NeighborsByHop, Ring, Settled, FoundFrom, FoundAll, FarEnds, Members, WithIn, Listed, OutEnds, InEnds;
    var room, outs := maxNodes - |Ring(g, r, asOf)|, Listed(g.outgoing, r);
    var a := FarEnds(g, outs, r, asOf);
    var first := FoundAll(g, r, asOf, Members(a));
    assert {} + first == first;
    FoundIfRoom(g, r, asOf, {}, a, room);
    var ls, ms, z := UnsettledTells(g, r, asOf, first, Listed(g.incoming, r), room);
    h, i := WithIn(g, r, ls), WithIn(g, r, ms);
    ReorderedIn(g, r, asOf, ls);
    ReorderedIn(g, r, asOf, ms);
    HopTwoByLists(g, h, r, asOf, maxNodes, outs, ls);
    HopTwoByLists(g, i, r, asOf, maxNodes, outs, ms);
    FoundTwice(g, r, asOf, {}, a, FarEnds(g, ls, r, asOf), room);
    FoundTwice(g, r, asOf, {}, a, FarEnds(g, ms, r, asOf), room);
  }

  /** No room is left once the bound is below 2. */
  lemma RoomNeedsBound(g: Graph, r: EntityId, asOf: Option<Time>, maxNodes: int)
    requires maxNodes - |Ring(g, r, asOf)| > 0
    ensures maxNodes >= 2
  {
    SubsetSize({r}, Ring(g, r, asOf));
  }

  /** Hop sets cut short or not depend on list order exactly when the root is not free. */
  lemma OrderBlindExactly(g: Graph, r: EntityId, asOf: Option<Time>, maxNodes: int)
    requires Coherent(g)
    ensures OrderBlind(g, r, asOf, maxNodes) <==> OrderFree(g, r, asOf, maxNodes)
  {
    if OrderFree(g, r, asOf, maxNodes) {
      FreeIsBlind(g, r, asOf, maxNodes);
    } else {
      var h, i := UnfreeTells(g, r, asOf, maxNodes);
      hide Coherent, SameGraph, NeighborsByHop, OrderFree;
    }
  }

  lemma UnfreeTells(g: Graph, r: EntityId, asOf: Option<Time>, maxNodes: int) returns (h: Graph, i: Graph)
    requires Coherent(g) && !OrderFree(g, r, asOf, maxNodes)
    ensures Tell(g, h, i, r, asOf, maxNodes)
  {
    hide Coherent, Free, Tell, Members, FarEnds, Ring, Settled, FoundAll, Listed;
    var room := maxNodes - |Ring(g, r, asOf)|;
    var outs, ins := Members(OutEnds(g, r, asOf)), Members(InEnds(g, r, asOf));
    UnfreeMeans(g, r, asOf, outs, ins, room);
    RoomNeedsBound(g, r, asOf, maxNodes);
    if !Settled(g, r, asOf, {}, outs, room) {
      h, i := OutgoingTell(g, r, asOf, maxNodes);
    } else {
      h, i := IncomingTell(g, r, asOf, maxNodes);
    }
  }

  lemma BlindMeans(g: Graph, h: Graph, r: EntityId, asOf: Option<Time>, maxNodes: int)
    requires OrderBlind(g, r, asOf, maxNodes) && SameGraph(g, h)
    ensures NeighborsByHop(g, r, asOf, 2, maxNodes) == NeighborsByHop(h, r, asOf, 2, maxNodes)
  {
    hide SameGraph, NeighborsByHop;
  }

  /** So the risk propagated to a free entity depends only on which events were delivered, also
      where its search is cut short. */
  lemma PropagationDependsOnlyOnEvents(s: Store, a: seq<Event>, b: seq<Event>, x: EntityId, asOf: Option<Time>)
    requires Coherent(s.graph) && EventSet(a) == EventSet(b) && IdsConsistent(NewTo(s, EventSet(a)))
    requires FaithfulBeyond(s.graph.edges.Keys, NewTo(s, EventSet(a)))
    requires OrderFree(Continued(s, a).graph, x, asOf, MAX_NODES)
    ensures PropagatedRisk(Continued(s, a).graph, x, asOf) == PropagatedRisk(Continued(s, b).graph, x, asOf)
  {
    hide *;
    var g, h := Continued(s, a).graph, Continued(s, b).graph;
    SameEventsSameGraph(s, a, b);
    SameNodes(g, h);
    FreeIsBlind(g, x, asOf, MAX_NODES);
    BlindMeans(g, h, x, asOf, MAX_NODES);
    SamePropagation(g, h, x, asOf);
  }
}
