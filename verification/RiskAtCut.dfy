/** The risk seen as of a past moment, after updates dated later. */
module RiskAtCut {
  import opened Options
  import opened Numeric
  import opened GraphModel
  import opened GraphLedger
  import opened SetSums
  import opened Traversal
  import opened TemporalCut
  import opened CrossMerchantRisk

  // ----- one node after a run

  /** A node with further sightings merged into it, in order. */
  function Merged(n: NodeVal, sightings: seq<NodeVal>): NodeVal {
    if sightings == [] then n else MergeNode(Merged(n, sightings[..|sightings| - 1]), sightings[|sightings| - 1])
  }

  lemma {:induction false} NodeAfterRun(g: Graph, us: seq<Update>, v: EntityId)
    requires v in g.nodes
    ensures v in ApplyAll(g, us).nodes && ApplyAll(g, us).nodes[v] == Merged(g.nodes[v], NodeUpdatesOf(us, v))
  {
    if us == [] {
    } else {
      NodeAfterRun(g, us[..|us| - 1], v);
    }
  }

  lemma {:induction false} NodeAddedExactly(g: Graph, us: seq<Update>, v: EntityId)
    ensures v in ApplyAll(g, us).nodes <==> v in g.nodes || NodeUpdatesOf(us, v) != []
  {
    if us == [] {
    } else {
      NodeAddedExactly(g, us[..|us| - 1], v);
    }
  }

  /** The merged score is the greatest of the old one and those reported. */
  lemma {:induction false} MergedRiskIsGreatest(n: NodeVal, sightings: seq<NodeVal>)
    ensures Merged(n, sightings).risk >= n.risk && Merged(n, sightings).kind == n.kind
    ensures forall i | 0 <= i < |sightings| :: Merged(n, sightings).risk >= sightings[i].risk
    ensures Merged(n, sightings).risk == n.risk
         || exists i :: 0 <= i < |sightings| && Merged(n, sightings).risk == sightings[i].risk
  {
    if sightings == [] {
    } else {
      MergedRiskIsGreatest(n, sightings[..|sightings| - 1]);
    }
  }

  // ----- propagated risk

  /** No known id of the hop set passes on a different share once the late reports are in. */
  ghost predicate SharesKept(
    g: Graph, us: seq<Update>, hop: set<EntityId>, cut: Time, floor: real, share: real)
  {
    forall v | v in hop && NodeAsOf(g, v, Some(cut)).Some? ::
      RiskShare(Merged(g.nodes[v], NodeUpdatesOf(us, v)).risk, floor, share) == RiskShare(g.nodes[v].risk, floor, share)
  }

  /** The share of one id, before and after: never lower, and equal as the reports say. */
  lemma LateShare(g: Graph, us: seq<Update>, cut: Time, v: EntityId, floor: real, share: real)
    requires AllAfter(us, cut) && floor >= 0.0 && share >= 0.0
    ensures Share(g, Some(cut), floor, share)(v) <= Share(ApplyAll(g, us), Some(cut), floor, share)(v)
    ensures Share(g, Some(cut), floor, share)(v) == Share(ApplyAll(g, us), Some(cut), floor, share)(v) <==>
            (NodeAsOf(g, v, Some(cut)).Some? ==>
               RiskShare(Merged(g.nodes[v], NodeUpdatesOf(us, v)).risk, floor, share)
               == RiskShare(g.nodes[v].risk, floor, share))
  {
    hide AllAfter, ApplyAll, RiskShare;
    var h := ApplyAll(g, us);
    NodePresenceKept(g, us, cut, v);
    if NodeAsOf(g, v, Some(cut)).Some? {
      NodeAfterRun(g, us, v);
      MergedRiskIsGreatest(g.nodes[v], NodeUpdatesOf(us, v));
    }
    ShareMonotone(NodeAsOf(g, v, Some(cut)), NodeAsOf(h, v, Some(cut)), floor, share);
  }

  lemma LateHop(g: Graph, us: seq<Update>, hop: set<EntityId>, cut: Time, floor: real, share: real)
    requires AllAfter(us, cut) && floor >= 0.0 && share >= 0.0
    ensures var f, h := Share(g, Some(cut), floor, share), Share(ApplyAll(g, us), Some(cut), floor, share);
      Sum(hop, f) <= Sum(hop, h) && (Sum(hop, f) == Sum(hop, h) <==> SharesKept(g, us, hop, cut, floor, share))
  {
    hide AllAfter, ApplyAll, Share, RiskShare, NodeAsOf, Merged;
    var f, h := Share(g, Some(cut), floor, share), Share(ApplyAll(g, us), Some(cut), floor, share);
    forall v
      ensures f(v) <= h(v)
      ensures f(v) == h(v) <==>
              (NodeAsOf(g, v, Some(cut)).Some? ==>
                 RiskShare(Merged(NodeAsOf(g, v, Some(cut)).value, NodeUpdatesOf(us, v)).risk, floor, share)
                 == RiskShare(NodeAsOf(g, v, Some(cut)).value.risk, floor, share))
    {
      LateShare(g, us, cut, v, floor, share);
      KnownNode(g, v, cut);
    }
    SumMonotone(hop, f, h);
    SumEqualExactly(hop, f, h);
    forall v | v in hop && NodeAsOf(g, v, Some(cut)).Some?
      ensures v in g.nodes && NodeAsOf(g, v, Some(cut)).value == g.nodes[v]
    {
      KnownNode(g, v, cut);
    }
  }

  lemma KnownNode(g: Graph, v: EntityId, cut: Time)
    ensures NodeAsOf(g, v, Some(cut)).Some? ==> v in g.nodes && NodeAsOf(g, v, Some(cut)).value == g.nodes[v]
  {
  }

  /** No later report changes the share of any id within two hops. */
  ghost predicate NeighborsKept(g: Graph, us: seq<Update>, cut: Time, x: EntityId) {
    var hops := NeighborsByHop(g, x, Some(cut), 2, MAX_NODES);
    SharesKept(g, us, hops.one, cut, 0.40, 0.50) && SharesKept(g, us, hops.two, cut, 0.60, 0.25)
  }

  /** Hindsight in scores goes one way: base scores carry no date, so later reports can raise
      the risk propagated as of an earlier cut but never lower it. It stays the same exactly
      when no share of a neighbour changes. */
  lemma LateRunsRaiseExactly(g: Graph, us: seq<Update>, cut: Time, x: EntityId)
    requires AllAfter(us, cut) && x in g.nodes
    ensures PropagatedRisk(g, x, Some(cut)) <= PropagatedRisk(ApplyAll(g, us), x, Some(cut))
    ensures PropagatedRisk(g, x, Some(cut)) == PropagatedRisk(ApplyAll(g, us), x, Some(cut)) <==>
            NeighborsKept(g, us, cut, x)
  {
    hide AllAfter, ApplyAll, NeighborsByHop, SharesKept, ClusterAround;
    NoHindsight(g, us, cut, x, 2, MAX_NODES);
    var hops := NeighborsByHop(g, x, Some(cut), 2, MAX_NODES);
    LateHop(g, us, hops.one, cut, 0.40, 0.50);
    LateHop(g, us, hops.two, cut, 0.60, 0.25);
  }

  ghost predicate RiskFree(us: seq<Update>) {
    forall i | 0 <= i < |us| :: us[i].NodeUpdate? ==> us[i].node.risk <= 0.0
  }

  lemma {:induction false} SightingsAreRiskFree(us: seq<Update>, v: EntityId)
    requires RiskFree(us)
    ensures forall i | 0 <= i < |NodeUpdatesOf(us, v)| :: NodeUpdatesOf(us, v)[i].risk <= 0.0
  {
    if us == [] {
    } else {
      SightingsAreRiskFree(us[..|us| - 1], v);
    }
  }

  /** Later updates that carry no base score, such as ingested events, change nothing about
      the risk propagated as of the cut. */
  lemma RiskFreeRunsKeepPropagation(g: Graph, us: seq<Update>, cut: Time, x: EntityId)
    requires AllAfter(us, cut) && RiskFree(us) && x in g.nodes
    ensures NeighborsKept(g, us, cut, x)
    ensures PropagatedRisk(ApplyAll(g, us), x, Some(cut)) == PropagatedRisk(g, x, Some(cut))
  {
    hide AllAfter, ApplyAll, NeighborsByHop, PropagatedRisk;
    forall v | v in g.nodes
      ensures forall floor: real, share: real | floor > 0.0 ::
                RiskShare(Merged(g.nodes[v], NodeUpdatesOf(us, v)).risk, floor, share)
                == RiskShare(g.nodes[v].risk, floor, share)
    {
      SightingsAreRiskFree(us, v);
      MergedRiskIsGreatest(g.nodes[v], NodeUpdatesOf(us, v));
    }
    assert NeighborsKept(g, us, cut, x) by {
      hide RiskShare, Merged;
    }
    LateRunsRaiseExactly(g, us, cut, x);
  }

  // ----- everything an assessment reads

  /** What the late updates of one edge add to a counter. */
  function LateSuccesses(us: seq<Update>): EdgeId -> int { k => Total(Map(EdgeSuccesses, EdgeUpdatesOf(us, k))) }

  function LateFailures(us: seq<Update>): EdgeId -> int { k => Total(Map(EdgeFailures, EdgeUpdatesOf(us, k))) }

  ghost predicate Visible(g: Graph, k: EdgeId, cut: Time) { k in g.edges && g.edges[k].first <= cut }

  lemma LateCounters(g: Graph, us: seq<Update>, cut: Time, k: EdgeId)
    requires AllAfter(us, cut) && Visible(g, k, cut)
    ensures SuccessesIn(ApplyAll(g, us))(k) == SuccessesIn(g)(k) + LateSuccesses(us)(k)
    ensures FailuresIn(ApplyAll(g, us))(k) == FailuresIn(g)(k) + LateFailures(us)(k)
  {
    hide AllAfter, ApplyAll;
    LateCountsLeak(g, us, cut, k);
  }

  lemma {:induction false} TallyPlus(ks: seq<EdgeId>, f: EdgeId -> int, late: EdgeId -> int, h: EdgeId -> int)
    requires forall i | 0 <= i < |ks| :: h(ks[i]) == f(ks[i]) + late(ks[i])
    ensures Tally(h, ks) == Tally(f, ks) + Tally(late, ks)
  {
    if ks == [] {
    } else {
      TallyPlus(ks[..|ks| - 1], f, late, h);
    }
  }

  lemma LateTallies(g: Graph, us: seq<Update>, cut: Time, x: EntityId)
    requires AllAfter(us, cut)
    ensures var h, ks := ApplyAll(g, us), Incident(g, x, Some(cut));
      && Incident(h, x, Some(cut)) == ks
      && Tally(SuccessesIn(h), ks) == Tally(SuccessesIn(g), ks) + Tally(LateSuccesses(us), ks)
      && Tally(FailuresIn(h), ks) == Tally(FailuresIn(g), ks) + Tally(LateFailures(us), ks)
  {
    var h, ks := ApplyAll(g, us), Incident(g, x, Some(cut));
    LateRunKeepsCut(g, us, cut);
    hide AllAfter, ApplyAll, SuccessesIn, FailuresIn, LateSuccesses, LateFailures;
    forall i | 0 <= i < |ks| ensures Visible(g, ks[i], cut) {
      VisibleMember(g, Touching(g, x), Some(cut), ks[i]);
    }
    forall i | 0 <= i < |ks|
      ensures SuccessesIn(h)(ks[i]) == SuccessesIn(g)(ks[i]) + LateSuccesses(us)(ks[i])
      ensures FailuresIn(h)(ks[i]) == FailuresIn(g)(ks[i]) + LateFailures(us)(ks[i])
    {
      LateCounters(g, us, cut, ks[i]);
    }
    TallyPlus(ks, SuccessesIn(g), LateSuccesses(us), SuccessesIn(h));
    TallyPlus(ks, FailuresIn(g), LateFailures(us), FailuresIn(h));
  }

  lemma LateSums(g: Graph, us: seq<Update>, cut: Time, ks: set<EdgeId>)
    requires AllAfter(us, cut) && forall k | k in ks :: Visible(g, k, cut)
    ensures var h := ApplyAll(g, us);
      && Sum(ks, SuccessesIn(h)) == Sum(ks, SuccessesIn(g)) + Sum(ks, LateSuccesses(us))
      && Sum(ks, FailuresIn(h)) == Sum(ks, FailuresIn(g)) + Sum(ks, LateFailures(us))
  {
    hide AllAfter, ApplyAll, SuccessesIn, FailuresIn, LateSuccesses, LateFailures, Visible;
    var h := ApplyAll(g, us);
    forall k | k in ks
      ensures SuccessesIn(h)(k) == SuccessesIn(g)(k) + LateSuccesses(us)(k)
      ensures FailuresIn(h)(k) == FailuresIn(g)(k) + LateFailures(us)(k)
    {
      LateCounters(g, us, cut, k);
    }
    SumPlus(ks, SuccessesIn(g), LateSuccesses(us), SuccessesIn(h));
    SumPlus(ks, FailuresIn(g), LateFailures(us), FailuresIn(h));
  }

  lemma LateKnown(g: Graph, us: seq<Update>, xs: set<EntityId>)
    ensures |KnownIn(ApplyAll(g, us), xs)| == |KnownIn(g, xs)| <==>
            forall v | v in xs && NodeUpdatesOf(us, v) != [] :: v in g.nodes
  {
    hide ApplyAll, NodeUpdatesOf;
    var h := ApplyAll(g, us);
    forall v ensures v in h.nodes <==> v in g.nodes || NodeUpdatesOf(us, v) != [] { NodeAddedExactly(g, us, v); }
    var a, b := KnownIn(g, xs), KnownIn(h, xs);
    assert a <= b;
    if v :| v in xs && NodeUpdatesOf(us, v) != [] && v !in g.nodes {
      assert v in b && v !in a;
      SubsetSize(a, b - {v});
    } else {
      assert a == b;
    }
  }

  lemma LateSeen(g: Graph, us: seq<Update>, cut: Time, x: EntityId, kind: EntityKind)
    requires AllAfter(us, cut)
    ensures Seen(ApplyAll(g, us), x, Some(cut), kind) == Seen(g, x, Some(cut), kind)
  {
    var h := ApplyAll(g, us);
    LateRunKeepsCut(g, us, cut);
    SameNeighbors(g, h, Some(cut), x);
    hide AllAfter, ApplyAll, NodeAsOf, SameAt;
    forall v
      ensures NodeAsOf(h, v, Some(cut)).Some? <==> NodeAsOf(g, v, Some(cut)).Some?
      ensures NodeAsOf(g, v, Some(cut)).Some? ==>
                NodeAsOf(h, v, Some(cut)).value.kind == NodeAsOf(g, v, Some(cut)).value.kind
    {
      NodePresenceKept(g, us, cut, v);
    }
  }

  /** The late updates touch nothing the assessment of `x` as of the cut reads: the gate of the
      prior-investigation rule, the outcome counters of its edges, the outcomes and the size of
      its cluster, and the shares of its neighbours. */
  ghost predicate Untouched(g: Graph, us: seq<Update>, cut: Time, x: EntityId)
    requires x in g.nodes
  {
    var ks, c := Incident(g, x, Some(cut)), ClusterAround(g, x, Some(cut), 2, MAX_NODES);
    && PriorRule(Merged(g.nodes[x], NodeUpdatesOf(us, x)), Some(cut)) == PriorRule(g.nodes[x], Some(cut))
    && Tally(LateSuccesses(us), ks) == 0 && Tally(LateFailures(us), ks) == 0
    && Sum(c.edges, LateSuccesses(us)) == 0 && Sum(c.edges, LateFailures(us)) == 0
    && (forall v | v in c.visited && NodeUpdatesOf(us, v) != [] :: v in g.nodes)
    && NeighborsKept(g, us, cut, x)
  }

  /** A late run leaves everything the assessment as of the cut reads as it was exactly when it
      touches none of it: neither more nor fewer updates matter. */
  lemma ReadingKeptExactly(g: Graph, us: seq<Update>, cut: Time, x: EntityId)
    requires AllAfter(us, cut) && x in g.nodes
    ensures x in ApplyAll(g, us).nodes
    ensures ReadingOf(ApplyAll(g, us), x, Some(cut)) == ReadingOf(g, x, Some(cut)) <==> Untouched(g, us, cut, x)
  {
    var h, c := ApplyAll(g, us), ClusterAround(g, x, Some(cut), 2, MAX_NODES);
    NodeAfterRun(g, us, x);
    MergedRiskIsGreatest(g.nodes[x], NodeUpdatesOf(us, x));
    NoHindsight(g, us, cut, x, 2, MAX_NODES);
    ClusterEdgesVisible(g, x, cut);
    hide *;
    LateTallies(g, us, cut, x);
    LateSums(g, us, cut, c.edges);
    LateKnown(g, us, c.visited);
    LateSeen(g, us, cut, x, Merchant);
    LateSeen(g, us, cut, x, Account);
    LateSeen(g, us, cut, x, Device);
    LateRunsRaiseExactly(g, us, cut, x);
    SameReading(g, h, us, cut, x);
  }

  lemma ClusterEdgesVisible(g: Graph, x: EntityId, cut: Time)
    ensures forall k | k in ClusterAround(g, x, Some(cut), 2, MAX_NODES).edges :: Visible(g, k, cut)
  {
    hide SearchFrom;
  }

  /** The parts put together. */
  lemma SameReading(g: Graph, h: Graph, us: seq<Update>, cut: Time, x: EntityId)
    requires x in g.nodes && x in h.nodes
    requires h.nodes[x] == Merged(g.nodes[x], NodeUpdatesOf(us, x)) && h.nodes[x].kind == g.nodes[x].kind
    requires Seen(h, x, Some(cut), Merchant) == Seen(g, x, Some(cut), Merchant)
    requires Seen(h, x, Some(cut), Account) == Seen(g, x, Some(cut), Account)
    requires Seen(h, x, Some(cut), Device) == Seen(g, x, Some(cut), Device)
    requires Incident(h, x, Some(cut)) == Incident(g, x, Some(cut))
    requires ClusterAround(h, x, Some(cut), 2, MAX_NODES) == ClusterAround(g, x, Some(cut), 2, MAX_NODES)
    requires var ks := Incident(g, x, Some(cut));
      && Tally(SuccessesIn(h), ks) == Tally(SuccessesIn(g), ks) + Tally(LateSuccesses(us), ks)
      && Tally(FailuresIn(h), ks) == Tally(FailuresIn(g), ks) + Tally(LateFailures(us), ks)
    requires var c := ClusterAround(g, x, Some(cut), 2, MAX_NODES);
      && Sum(c.edges, SuccessesIn(h)) == Sum(c.edges, SuccessesIn(g)) + Sum(c.edges, LateSuccesses(us))
      && Sum(c.edges, FailuresIn(h)) == Sum(c.edges, FailuresIn(g)) + Sum(c.edges, LateFailures(us))
      && (|KnownIn(h, c.visited)| == |KnownIn(g, c.visited)| <==>
            forall v | v in c.visited && NodeUpdatesOf(us, v) != [] :: v in g.nodes)
    requires PropagatedRisk(g, x, Some(cut)) == PropagatedRisk(h, x, Some(cut)) <==> NeighborsKept(g, us, cut, x)
    ensures ReadingOf(h, x, Some(cut)) == ReadingOf(g, x, Some(cut)) <==> Untouched(g, us, cut, x)
  {
    hide Seen, Tally, Sum, ClusterAround, PriorRule, KnownIn, PropagatedRisk, NeighborsKept, Merged, NodeUpdatesOf,
      Incident, SuccessesIn, FailuresIn, LateSuccesses, LateFailures;
  }

  /** So an untouched assessment comes out the same, in score, level and both parts. */
  lemma UntouchedAssessmentKept(
    g: Graph, us: seq<Update>, cut: Time, x: EntityId, sigma: real -> real, r: Assessment, s: Assessment)
    requires AllAfter(us, cut) && x in g.nodes && Untouched(g, us, cut, x)
    requires Explains(r, g, x, Some(cut), sigma) && Explains(s, ApplyAll(g, us), x, Some(cut), sigma)
    ensures s.score == r.score && s.level == r.level && s.direct == r.direct && s.propagated == r.propagated
  {
    ReadingKeptExactly(g, us, cut, x);
    NodePresenceKept(g, us, cut, x);
    SameReadingSameAssessment(g, ApplyAll(g, us), cut, x, sigma, r, s);
  }

  lemma SameReadingSameAssessment(
    g: Graph, h: Graph, cut: Time, x: EntityId, sigma: real -> real, r: Assessment, s: Assessment)
    requires x in g.nodes && x in h.nodes && ReadingOf(h, x, Some(cut)) == ReadingOf(g, x, Some(cut))
    requires NodeAsOf(h, x, Some(cut)).Some? <==> NodeAsOf(g, x, Some(cut)).Some?
    requires Explains(r, g, x, Some(cut), sigma) && Explains(s, h, x, Some(cut), sigma)
    ensures s.score == r.score && s.level == r.level && s.direct == r.direct && s.propagated == r.propagated
  {
    hide NodeAsOf, DirectPoints, Attributed, LevelOf, Sum, Seen, Tally, ClusterAround, KnownIn, PropagatedRisk,
      PriorRule;
    PropagatedIsRead(g, x, cut);
    PropagatedIsRead(h, x, cut);
  }

  lemma PropagatedIsRead(g: Graph, x: EntityId, cut: Time)
    requires x in g.nodes
    ensures ReadingOf(g, x, Some(cut)).propagated == PropagatedRisk(g, x, Some(cut))
  {
  }

  // ----- the gate of the prior-investigation rule

  /** Sightings end no earlier than they begin. */
  ghost predicate Proper(sightings: seq<NodeVal>, cut: Time) {
    forall i | 0 <= i < |sightings| :: sightings[i].last > cut
  }

  lemma {:induction false} MergedLast(n: NodeVal, sightings: seq<NodeVal>, cut: Time)
    requires Proper(sightings, cut)
    ensures Merged(n, sightings).last > cut <==> sightings != [] || n.last > cut
  {
    if sightings == [] {
    } else {
      MergedLast(n, sightings[..|sightings| - 1], cut);
    }
  }

  /** With late sightings of the entity itself the rule falls silent: it stays as it was exactly
      when there is none or it was silent before. */
  lemma PriorKeptExactly(n: NodeVal, sightings: seq<NodeVal>, cut: Time)
    requires Proper(sightings, cut)
    ensures PriorRule(Merged(n, sightings), Some(cut)) == PriorRule(n, Some(cut)) <==>
            sightings == [] || PriorRule(n, Some(cut)).Nothing?
  {
    hide Points;
    MergedLast(n, sightings, cut);
  }

  // ----- runs that do change the assessment

  const Suspect := NodeVal(EntityId("dev_a"), Device, 0, 0, 0.8, 1)
  const Peer := NodeVal(EntityId("ip_b"), Ip, 0, 0, 0.0, 1)
  const Tie := EdgeVal(EdgeId("t"), EntityId("dev_a"), EntityId("ip_b"), 0, 0, 1, 0, 0)

  /** A device with a prior investigation, asked about as of 10 and sighted again at 20: the
      points of the investigation are in the first reading and not in the second. */
  lemma LaterSightingSilencesPrior()
    ensures var g, us := AddNode(EMPTY, Suspect), [NodeUpdate(NodeVal(EntityId("dev_a"), Device, 20, 20, 0.0, 1))];
      && AllAfter(us, 10)
      && PriorRule(g.nodes[EntityId("dev_a")], Some(10)) == Fires(PriorInvestigation, 8000)
      && PriorRule(ApplyAll(g, us).nodes[EntityId("dev_a")], Some(10)).Nothing?
  {
    var us := [NodeUpdate(NodeVal(EntityId("dev_a"), Device, 20, 20, 0.0, 1))];
    assert us[..0] == [];
    RoundOfInteger(8000);
  }

  function Pair(): Graph { AddEdge(AddNode(AddNode(EMPTY, Suspect.(risk := 0.0)), Peer), Tie) }

  lemma PairIsLinked()
    ensures Coherent(Pair()) && EntityId("dev_a") in Pair().nodes && EntityId("ip_b") in Pair().nodes
    ensures Pair().nodes[EntityId("ip_b")] == Peer
    ensures EntityId("ip_b") in NeighborsByHop(Pair(), EntityId("dev_a"), Some(10), 2, MAX_NODES).one
  {
    var g := Pair();
    assert "dev_a"[0] != "ip_b"[0];
    ApplyKeepsCoherent(EMPTY, NodeUpdate(Suspect.(risk := 0.0)));
    ApplyKeepsCoherent(AddNode(EMPTY, Suspect.(risk := 0.0)), NodeUpdate(Peer));
    AddEdgeKeepsCoherent(AddNode(AddNode(EMPTY, Suspect.(risk := 0.0)), Peer), Tie);
    hide Coherent, NeighborsByHop;
    assert Joins(g.edges[EdgeId("t")], EntityId("dev_a"), EntityId("ip_b"));
    assert Linked(g, Some(10), EntityId("dev_a"), EntityId("ip_b"));
    LinkedIsHopOne(g, EntityId("dev_a"), Some(10), 2, MAX_NODES, EntityId("ip_b"));
  }

  /** A neighbour reported at 20 with a base score of 0.8 raises what was propagated as of 10. */
  lemma LaterReportRaises()
    ensures var us := [NodeUpdate(NodeVal(EntityId("ip_b"), Ip, 20, 20, 0.8, 1))];
      && AllAfter(us, 10)
      && PropagatedRisk(Pair(), EntityId("dev_a"), Some(10))
         < PropagatedRisk(ApplyAll(Pair(), us), EntityId("dev_a"), Some(10))
  {
    var u := NodeVal(EntityId("ip_b"), Ip, 20, 20, 0.8, 1);
    var us := [NodeUpdate(u)];
    PairIsLinked();
    SharesDiffer(u);
    hide Pair, PropagatedRisk, NeighborsByHop, RiskShare;
    LateRunsRaiseExactly(Pair(), us, 10, EntityId("dev_a"));
  }

  lemma SharesDiffer(u: NodeVal)
    requires u.id == EntityId("ip_b") && u.risk == 0.8
    ensures RiskShare(Merged(Peer, NodeUpdatesOf([NodeUpdate(u)], EntityId("ip_b"))).risk, 0.40, 0.50)
         != RiskShare(Peer.risk, 0.40, 0.50)
    ensures NodeAsOf(Pair(), EntityId("ip_b"), Some(10)).Some?
  {
    assert "dev_a"[0] != "ip_b"[0];
    assert [NodeUpdate(u)][..0] == [];
    assert NodeUpdatesOf([NodeUpdate(u)], EntityId("ip_b")) == [u];
    assert [u][..0] == [];
    assert Merged(Peer, [u]).risk == 0.8;
    RoundOfInteger(4000);
  }
}
