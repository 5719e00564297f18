/** Cross-merchant risk: direct rules, propagation from one and two hops, attribution.
    Scores are in ten-thousandths, so that four-digit rounding is exact. */
module CrossMerchantRisk {
  import opened Options
  import opened Numeric
  import opened GraphModel
  import opened Traversal
  import opened SetSums
  import opened EntityGraphs

  const MAX_NODES := 200

  datatype Rule =
    | PriorInvestigation | DeviceReuse | IpFailureCluster | AccountRotation | FailureConcentration
    | OneHopNeighbor | TwoHopNeighbor | SuspiciousCluster

  datatype Signal = Signal(rule: Rule, contribution: int)

  datatype Level = Low | Medium | High

  datatype Assessment = Assessment(
    score: int, level: Level, direct: int, propagated: int, signals: seq<Signal>)

  /** `round(x, 4)` in ten-thousandths. */
  function Points(x: real): int { RoundHalfEven(x * 10000.0) }

  function Attributed(signals: seq<Signal>): int {
    if signals == [] then 0 else Attributed(signals[..|signals| - 1]) + signals[|signals| - 1].contribution
  }

  lemma AttributedNext(signals: seq<Signal>, s: Signal)
    ensures Attributed(signals + [s]) == Attributed(signals) + s.contribution
  {
    assert (signals + [s])[..|signals|] == signals;
  }

  // ----- what the incident edges say

  /** The ids of one kind, known at the cut, at the other end of an incident edge. */
  function Seen(g: Graph, x: EntityId, asOf: Option<Time>, kind: EntityKind): set<EntityId> {
    SeenIn(g, Neighbors(g, x, asOf), asOf, kind)
  }

  function SeenIn(g: Graph, ns: seq<EntityId>, asOf: Option<Time>, kind: EntityKind): set<EntityId> {
    set v | v in ns && NodeAsOf(g, v, asOf).Some? && NodeAsOf(g, v, asOf).value.kind == kind
  }

  function Tally(f: EdgeId -> int, ks: seq<EdgeId>): int {
    if ks == [] then 0 else Tally(f, ks[..|ks| - 1]) + f(ks[|ks| - 1])
  }

  // ----- the direct rules; `sigma` is the logistic curve

  /** What one rule adds to the direct score, if it fires. */
  datatype Finding = Nothing | Fires(rule: Rule, points: int)

  function PointsOf(f: Finding): int { if f.Fires? then f.points else 0 }

  function SignalsOf(f: Finding): seq<Signal> { if f.Fires? then [Signal(f.rule, f.points)] else [] }

  function PriorRule(n: NodeVal, asOf: Option<Time>): Finding {
    if n.risk > 0.0 && (asOf.None? || n.last <= asOf.value) then Fires(PriorInvestigation, Points(n.risk))
    else Nothing
  }

  function Times(x: real, y: real): real { x * y }

  /** A curve value, at least the share `least` of it, growing with the failure rate. */
  function Grown(curve: real, least: real, rate: real): real { Times(curve, least + (1.0 - least) * rate) }

  function KindRule(
    kind: EntityKind, merchants: int, accounts: int, devices: int, rate: real, sigma: real -> real): Finding
  {
    match kind
    case Device =>
      if (accounts <= 3 && rate == 0.0) || merchants < 2 then Nothing
      else if Grown(sigma((merchants + accounts - 4) as real), 0.6, rate) > 0.25
      then Fires(DeviceReuse, Points(Grown(sigma((merchants + accounts - 4) as real), 0.6, rate) * 0.50))
      else Nothing
    case Ip =>
      if (accounts >= 3 && rate == 0.0) || !((merchants >= 2 || accounts >= 3) && rate >= 0.30) then Nothing
      else Fires(IpFailureCluster, Points(Grown(sigma((merchants + accounts - 4) as real), 0.5, rate) * 0.45))
    case Account =>
      if devices >= 3 || merchants >= 3
      then Fires(AccountRotation, Points(Grown(sigma((devices + merchants - 4) as real), 0.6, rate) * 0.45))
      else Nothing
    case _ => Nothing
  }

  function FailureRule(outcomes: int, rate: real, sigma: real -> real): Finding {
    if outcomes >= 3 && rate >= 0.50
    then Fires(FailureConcentration, Points(sigma(5.0 * (rate - 0.5)) * 0.30)) else Nothing
  }

  function ClusterRule(nodeCount: int, rate: real, sigma: real -> real): Finding {
    if nodeCount >= 5 && rate >= 0.60
    then Fires(SuspiciousCluster, Points(Times(sigma((nodeCount - 5) as real), rate) * 0.20)) else Nothing
  }

  /** Everything an assessment reads of the graph. */
  datatype Reading = Reading(
    prior: Finding, kind: EntityKind, merchants: int, accounts: int, devices: int, successes: int, failures: int,
    clusterNodes: int, clusterSuccesses: int, clusterFailures: int, propagated: int)

  ghost function ReadingOf(g: Graph, x: EntityId, asOf: Option<Time>): Reading
    requires x in g.nodes
  {
    var c := ClusterAround(g, x, asOf, 2, MAX_NODES);
    Reading(
      PriorRule(g.nodes[x], asOf), g.nodes[x].kind,
      |Seen(g, x, asOf, Merchant)|, |Seen(g, x, asOf, Account)|, |Seen(g, x, asOf, Device)|,
      Tally(SuccessesIn(g), Incident(g, x, asOf)), Tally(FailuresIn(g), Incident(g, x, asOf)),
      |KnownIn(g, c.visited)|, Sum(c.edges, SuccessesIn(g)), Sum(c.edges, FailuresIn(g)),
      PropagatedRisk(g, x, asOf))
  }

  /** The visited ids that are nodes at all; the time cut plays no part in it. */
  function KnownIn(g: Graph, xs: set<EntityId>): set<EntityId> { set v | v in xs && v in g.nodes }

  function EntityRules(r: Reading, sigma: real -> real): (Finding, Finding) {
    var rate := FailureRate(r.successes, r.failures);
    (KindRule(r.kind, r.merchants, r.accounts, r.devices, rate, sigma),
     FailureRule(r.successes + r.failures, rate, sigma))
  }

  function ClusterFinding(r: Reading, sigma: real -> real): Finding {
    ClusterRule(r.clusterNodes, FailureRate(r.clusterSuccesses, r.clusterFailures), sigma)
  }

  /** The points of the four rules. */
  function DirectPoints(r: Reading, sigma: real -> real): int {
    var (kind, failure) := EntityRules(r, sigma);
    PointsOf(r.prior) + PointsOf(kind) + PointsOf(failure) + PointsOf(ClusterFinding(r, sigma))
  }

  ghost function DirectRisk(g: Graph, x: EntityId, asOf: Option<Time>, sigma: real -> real): int
    requires x in g.nodes
  {
    DirectPoints(ReadingOf(g, x, asOf), sigma)
  }

  function Capped(points: int): int { if points < 10000 then points else 10000 }

  /** The score of an assessment; an entity not known at the cut has none. */
  ghost function AssessedScore(g: Graph, x: EntityId, asOf: Option<Time>, sigma: real -> real): int {
    if NodeAsOf(g, x, asOf).None? then 0
    else Capped(DirectRisk(g, x, asOf, sigma) + PropagatedRisk(g, x, asOf))
  }

  // ----- propagation

  /** What neighbour `v` passes on: `share` of its base score, from `floor` upwards. */
  function Share(g: Graph, asOf: Option<Time>, floor: real, share: real): EntityId -> int {
    v => ShareOf(NodeAsOf(g, v, asOf), floor, share)
  }

  function ShareOf(n: Option<NodeVal>, floor: real, share: real): int {
    if n.Some? then RiskShare(n.value.risk, floor, share) else 0
  }

  function RiskShare(risk: real, floor: real, share: real): int {
    if risk >= floor then PartOf(risk, share) else 0
  }

  /** A share of a score, in points. */
  function PartOf(risk: real, share: real): int { Points(risk * share) }

  function OneHopShare(g: Graph, asOf: Option<Time>): EntityId -> int { Share(g, asOf, 0.40, 0.50) }

  function TwoHopShare(g: Graph, asOf: Option<Time>): EntityId -> int { Share(g, asOf, 0.60, 0.25) }

  /** The sum over both hop sets: no order of iteration appears in it. */
  ghost function PropagatedRisk(g: Graph, x: EntityId, asOf: Option<Time>): int {
    var hops := NeighborsByHop(g, x, asOf, 2, MAX_NODES);
    Sum(hops.one, OneHopShare(g, asOf)) + Sum(hops.two, TwoHopShare(g, asOf))
  }

  /** The signal of one neighbour, if it is known and reaches the floor. */
  function SignalOf(g: Graph, asOf: Option<Time>, floor: real, share: real, rule: Rule, v: EntityId): multiset<Signal> {
    var n := NodeAsOf(g, v, asOf);
    if n.Some? && n.value.risk >= floor then multiset{Signal(rule, PartOf(n.value.risk, share))} else multiset{}
  }

  /** One signal for each such neighbour of a hop set, in no order. */
  ghost function HopSignals(
    g: Graph, asOf: Option<Time>, floor: real, share: real, rule: Rule, hop: set<EntityId>): multiset<Signal>
  {
    if hop == {} then multiset{}
    else
      var v :| v in hop;
      SignalOf(g, asOf, floor, share, rule, v) + HopSignals(g, asOf, floor, share, rule, hop - {v})
  }

  /** Any neighbour may be taken first. */
  lemma {:induction false} HopSignalsRemove(
    g: Graph, asOf: Option<Time>, floor: real, share: real, rule: Rule, hop: set<EntityId>, x: EntityId)
    requires x in hop
    ensures HopSignals(g, asOf, floor, share, rule, hop)
         == SignalOf(g, asOf, floor, share, rule, x) + HopSignals(g, asOf, floor, share, rule, hop - {x})
  {
    hide SignalOf;
    var y :| y in hop && HopSignals(g, asOf, floor, share, rule, hop)
      == SignalOf(g, asOf, floor, share, rule, y) + HopSignals(g, asOf, floor, share, rule, hop - {y});
    if y != x {
      HopSignalsRemove(g, asOf, floor, share, rule, hop - {y}, x);
      HopSignalsRemove(g, asOf, floor, share, rule, hop - {x}, y);
      assert hop - {y} - {x} == hop - {x} - {y};
    }
  }

  lemma HopSignalsAdd(
    g: Graph, asOf: Option<Time>, floor: real, share: real, rule: Rule, hop: set<EntityId>, x: EntityId)
    requires x !in hop
    ensures HopSignals(g, asOf, floor, share, rule, hop + {x})
         == HopSignals(g, asOf, floor, share, rule, hop) + SignalOf(g, asOf, floor, share, rule, x)
  {
    HopSignalsRemove(g, asOf, floor, share, rule, hop + {x}, x);
    assert hop + {x} - {x} == hop;
  }

  /** All signals of an assessment: one per rule that fires and one per neighbour that reaches
      the floor of its hop. */
  ghost function AllSignals(g: Graph, x: EntityId, asOf: Option<Time>, sigma: real -> real): multiset<Signal>
    requires x in g.nodes
  {
    var r, hops := ReadingOf(g, x, asOf), NeighborsByHop(g, x, asOf, 2, MAX_NODES);
    multiset(SignalsOf(r.prior)) + multiset(SignalsOf(EntityRules(r, sigma).0))
    + multiset(SignalsOf(EntityRules(r, sigma).1)) + multiset(SignalsOf(ClusterFinding(r, sigma)))
    + HopSignals(g, asOf, 0.40, 0.50, OneHopNeighbor, hops.one)
    + HopSignals(g, asOf, 0.60, 0.25, TwoHopNeighbor, hops.two)
  }

  function LevelOf(score: int): Level {
    if score >= 7000 then High else if score >= 3000 then Medium else Low
  }

  /** What the assessment promises: the direct score is what the rules add up to, the
      propagated one what the hop sets do, the signals are one per rule that fires and one per
      neighbour that passes anything on, and every point is attributed to a signal. */
  ghost predicate Explains(r: Assessment, g: Graph, x: EntityId, asOf: Option<Time>, sigma: real -> real) {
    if NodeAsOf(g, x, asOf).None? then r == Assessment(0, Low, 0, 0, [])
    else
      && r.direct == DirectRisk(g, x, asOf, sigma)
      && r.propagated == PropagatedRisk(g, x, asOf)
      && multiset(r.signals) == AllSignals(g, x, asOf, sigma)
      && Attributed(r.signals) == r.direct + r.propagated
      && r.score == AssessedScore(g, x, asOf, sigma)
      && r.level == LevelOf(r.score)
  }

  /** Add the signals of one hop set, taking its ids in any order. */
  method Propagate(graph: EntityGraph, hop: set<EntityId>, asOf: Option<Time>, floor: real, share: real, rule: Rule)
    returns (addition: int, signals: seq<Signal>)
    requires graph.Valid()
    ensures addition == Sum(hop, Share(graph.view, asOf, floor, share))
    ensures Attributed(signals) == addition
    ensures multiset(signals) == HopSignals(graph.view, asOf, floor, share, rule, hop)
  {
    hide HopSignals, Coherent, PartOf, Attributed;
    NoHopSignals(graph.view, asOf, floor, share, rule);
    addition, signals := 0, [];
    ghost var f := Share(graph.view, asOf, floor, share);
    var rest := hop;
    while rest != {}
      invariant rest <= hop
      invariant addition == Sum(hop - rest, f) && Attributed(signals) == addition
      invariant multiset(signals) == HopSignals(graph.view, asOf, floor, share, rule, hop - rest)
      decreases rest
    {
      var v :| v in rest;
      ghost var done := hop - rest;
      rest := rest - {v};
      assert done + {v} == hop - rest;
      var n := graph.GetNode(v, asOf);
      SumAdd(done, f, v);
      HopSignalsAdd(graph.view, asOf, floor, share, rule, done, v);
      assert f(v) == if n.Some? then RiskShare(n.value.riskBaseScore, floor, share) else 0;
      if n.Some? && n.value.riskBaseScore >= floor {
        var value := PartOf(n.value.riskBaseScore, share);
        AttributedNext(signals, Signal(rule, value));
        addition := addition + value;
        signals := signals + [Signal(rule, value)];
      }
    }
    assert hop - rest == hop;
  }

  lemma NoHopSignals(g: Graph, asOf: Option<Time>, floor: real, share: real, rule: Rule)
    ensures HopSignals(g, asOf, floor, share, rule, {}) == multiset{}
    ensures Attributed([]) == 0
  {
  }

  /** One pass over the incident edges: who is at the other end, and how outcomes fell. */
  method Inspect(graph: EntityGraph, x: EntityId, asOf: Option<Time>)
    returns (merchants: set<EntityId>, accounts: set<EntityId>, devices: set<EntityId>, successes: int, failures: int)
    requires graph.Valid()
    ensures merchants == Seen(graph.view, x, asOf, Merchant) && accounts == Seen(graph.view, x, asOf, Account)
    ensures devices == Seen(graph.view, x, asOf, Device)
    ensures successes == Tally(SuccessesIn(graph.view), Incident(graph.view, x, asOf))
    ensures failures == Tally(FailuresIn(graph.view), Incident(graph.view, x, asOf))
  {
    hide *;
    merchants, accounts, devices, successes, failures := {}, {}, {}, 0, 0;
    var incident := graph.GetIncidentEdges(x, asOf);
    ghost var g, ks, ns := graph.view, Incident(graph.view, x, asOf), Neighbors(graph.view, x, asOf);
    Beginning(g, ks, ns, asOf);
    for i := 0 to |incident|
      invariant merchants == SeenIn(g, ns[..i], asOf, Merchant)
      invariant accounts == SeenIn(g, ns[..i], asOf, Account)
      invariant devices == SeenIn(g, ns[..i], asOf, Device)
      invariant successes == Tally(SuccessesIn(g), ks[..i]) && failures == Tally(FailuresIn(g), ks[..i])
    {
      var e := incident[i];
      var other := OtherEndOf(e, x);
      var node := graph.GetNode(other, asOf);
      graph.NeighborAt(x, asOf, incident, i);
      SeenNext(graph, ns, i, asOf, node, Merchant);
      SeenNext(graph, ns, i, asOf, node, Account);
      SeenNext(graph, ns, i, asOf, node, Device);
      TallyNext(SuccessesIn(g), ks, i);
      TallyNext(FailuresIn(g), ks, i);
      OutcomesOf(graph, incident, ks, i);
      if node.Some? {
        match node.value.kind {
          case Merchant => merchants := merchants + {other};
          case Account => accounts := accounts + {other};
          case Device => devices := devices + {other};
          case _ =>
        }
      }
      successes := successes + e.successCount;
      failures := failures + e.failureCount;
    }
    assert ks[..|incident|] == ks && ns[..|incident|] == ns;
    SeenAll(g, x, asOf);
  }

  lemma Beginning(g: Graph, ks: seq<EdgeId>, ns: seq<EntityId>, asOf: Option<Time>)
    ensures forall kind :: SeenIn(g, ns[..0], asOf, kind) == {}
    ensures Tally(SuccessesIn(g), ks[..0]) == Tally(FailuresIn(g), ks[..0]) == 0
  {
  }

  lemma SeenAll(g: Graph, x: EntityId, asOf: Option<Time>)
    ensures forall kind :: Seen(g, x, asOf, kind) == SeenIn(g, Neighbors(g, x, asOf), asOf, kind)
  {
  }

  /** `node` is what `get_node` answers for the next id of the list. */
  lemma SeenNext(
    graph: EntityGraph, ns: seq<EntityId>, i: nat, asOf: Option<Time>, node: Option<EntityNode>, kind: EntityKind)
    requires i < |ns|
    requires node.Some? <==> NodeAsOf(graph.view, ns[i], asOf).Some?
    requires node.Some? ==> node.value.Value() == NodeAsOf(graph.view, ns[i], asOf).value
    ensures SeenIn(graph.view, ns[..i + 1], asOf, kind) ==
            SeenIn(graph.view, ns[..i], asOf, kind)
            + if node.Some? && node.value.kind == kind then {ns[i]} else {}
  {
    assert ns[..i + 1] == ns[..i] + [ns[i]];
  }

  lemma OutcomesOf(graph: EntityGraph, incident: seq<EntityEdge>, ks: seq<EdgeId>, i: nat)
    requires graph.Valid() && graph.Matches(incident, ks) && i < |ks|
    ensures SuccessesIn(graph.view)(ks[i]) == incident[i].successCount
    ensures FailuresIn(graph.view)(ks[i]) == incident[i].failureCount
  {
    assert graph.edges[ks[i]].Value() == graph.view.edges[ks[i]];
  }

  lemma TallyNext(f: EdgeId -> int, ks: seq<EdgeId>, i: nat)
    requires i < |ks|
    ensures Tally(f, ks[..i + 1]) == Tally(f, ks[..i]) + f(ks[i])
  {
    assert ks[..i + 1][..i] == ks[..i];
  }

  function MaxInt(a: int, b: int): int { if b > a then b else a }

  lemma PointsNonNegative(x: real)
    requires x >= 0.0
    ensures Points(x) >= 0
  {
    RoundMonotone(0.0, x * 10000.0);
    RoundOfInteger(0);
  }

  /** The rule of the entity's own kind, adding to the score and to the signals. */
  method ApplyKindRule(
    kind: EntityKind, merchants: int, accounts: int, devices: int, rate: real, sigma: real -> real, direct0: int,
    signals0: seq<Signal>) returns (directScore: int, signals: seq<Signal>)
    ensures var f := KindRule(kind, merchants, accounts, devices, rate, sigma);
      directScore == direct0 + PointsOf(f) && signals == signals0 + SignalsOf(f)
  {
    directScore, signals := direct0, signals0;
    match kind {
      case Device =>
        if accounts <= 3 && rate == 0.0 {
        } else if merchants >= 2 {
          var curve := sigma((merchants + accounts - 4) as real);
          if Grown(curve, 0.6, rate) > 0.25 {
            var contribution := Points(Grown(curve, 0.6, rate) * 0.50);
            directScore := directScore + contribution;
            signals := signals + [Signal(DeviceReuse, contribution)];
          }
        }
      case Ip =>
        if accounts >= 3 && rate == 0.0 {
        } else if (merchants >= 2 || accounts >= 3) && rate >= 0.30 {
          var contribution := Points(Grown(sigma((merchants + accounts - 4) as real), 0.5, rate) * 0.45);
          directScore := directScore + contribution;
          signals := signals + [Signal(IpFailureCluster, contribution)];
        }
      case Account =>
        if devices >= 3 || merchants >= 3 {
          var contribution := Points(Grown(sigma((devices + merchants - 4) as real), 0.6, rate) * 0.45);
          directScore := directScore + contribution;
          signals := signals + [Signal(AccountRotation, contribution)];
        }
      case _ =>
    }
  }

  /** The rules that look at the entity itself and its incident edges: the direct score is
      accumulated beside the signals, starting with a maximum. */
  method ApplyRules(
    n: NodeVal, merchants: int, accounts: int, devices: int, successes: int, failures: int, asOf: Option<Time>,
    sigma: real -> real) returns (directScore: int, signals: seq<Signal>)
    ensures var rate := FailureRate(successes, failures);
      var prior, kind := PriorRule(n, asOf), KindRule(n.kind, merchants, accounts, devices, rate, sigma);
      var failure := FailureRule(successes + failures, rate, sigma);
      && directScore == PointsOf(prior) + PointsOf(kind) + PointsOf(failure)
      && signals == SignalsOf(prior) + SignalsOf(kind) + SignalsOf(failure)
  {
    hide KindRule, FailureRate, Points;
    directScore, signals := 0, [];
    if n.risk > 0.0 && (asOf.None? || n.last <= asOf.value) {
      var contribution := Points(n.risk);
      PointsNonNegative(n.risk);
      directScore := MaxInt(directScore, contribution);
      signals := signals + [Signal(PriorInvestigation, contribution)];
    }
    var rate := FailureRate(successes, failures);
    directScore, signals := ApplyKindRule(n.kind, merchants, accounts, devices, rate, sigma, directScore, signals);
    if successes + failures >= 3 && rate >= 0.50 {
      var contribution := Points(sigma(5.0 * (rate - 0.5)) * 0.30);
      directScore := directScore + contribution;
      signals := signals + [Signal(FailureConcentration, contribution)];
    }
  }

  method RaiseRuleSignals(graph: EntityGraph, node: EntityNode, asOf: Option<Time>, sigma: real -> real)
    returns (directScore: int, signals: seq<Signal>)
    requires graph.Valid() && node.entityId in graph.nodes && graph.nodes[node.entityId] == node
    ensures node.entityId in graph.view.nodes
    ensures var r := ReadingOf(graph.view, node.entityId, asOf);
      var (kind, failure) := EntityRules(r, sigma);
      && directScore == PointsOf(r.prior) + PointsOf(kind) + PointsOf(failure)
      && signals == SignalsOf(r.prior) + SignalsOf(kind) + SignalsOf(failure)
  {
    hide Seen, Tally, PriorRule, KindRule, FailureRule, ClusterAround, PropagatedRisk, Sum, KnownIn, Coherent,
      PointsOf, SignalsOf, FailureRate;
    var merchants, accounts, devices, successes, failures := Inspect(graph, node.entityId, asOf);
    assert node.Value() == graph.view.nodes[node.entityId];
    directScore, signals := ApplyRules(
      node.Value(), |merchants|, |accounts|, |devices|, successes, failures, asOf, sigma);
  }

  method ComputeCrossMerchantRisk(graph: EntityGraph, x: EntityId, asOf: Option<Time>, sigma: real -> real)
    returns (r: Assessment)
    requires graph.Valid()
    ensures Explains(r, graph.view, x, asOf, sigma)
  {
    hide *;
    var node := graph.GetNode(x, asOf);
    if node.None? {
      Unexplained(graph.view, x, asOf, sigma);
      return Assessment(0, Low, 0, 0, []);
    }
    NodeIsKnown(graph, x, asOf, node);
    var directScore, signals := RaiseRuleSignals(graph, node.value, asOf, sigma);
    ghost var rules := signals;
    var hops := graph.GetNeighborsByHop(x, asOf, 2, MAX_NODES);
    var addition1, signals1 := Propagate(graph, hops.one, asOf, 0.40, 0.50, OneHopNeighbor);
    var addition2, signals2 := Propagate(graph, hops.two, asOf, 0.60, 0.25, TwoHopNeighbor);
    signals := signals + signals1 + signals2;
    var cluster, _, _ := graph.FindConnectedCluster(x, asOf, 2, MAX_NODES);
    ghost var last := ClusterRule(cluster.nodeCount, cluster.failureRate, sigma);
    AddCluster(cluster.nodeCount, cluster.failureRate, sigma);
    if cluster.nodeCount >= 5 && cluster.failureRate >= 0.60 {
      var contribution := Points(Times(sigma((cluster.nodeCount - 5) as real), cluster.failureRate) * 0.20);
      directScore := directScore + contribution;
      signals := signals + [Signal(SuspiciousCluster, contribution)];
    }
    var propagated := addition1 + addition2;
    var score := if directScore + propagated < 10000 then directScore + propagated else 10000;
    r := Assessment(score, LevelOf(score), directScore, propagated, signals);
    assert signals == rules + signals1 + signals2 + SignalsOf(last);
    ClusterIsRead(graph.view, x, asOf, sigma, cluster);
    RulesAreAttributed(graph.view, x, asOf, sigma, rules, signals1, signals2, last);
    SignalsAreAll(graph.view, x, asOf, sigma, rules, signals1, signals2, last);
    Explained(graph.view, x, asOf, sigma, r);
  }

  lemma AddCluster(nodeCount: int, rate: real, sigma: real -> real)
    ensures var f := ClusterRule(nodeCount, rate, sigma);
      if nodeCount >= 5 && rate >= 0.60 then
        PointsOf(f) == Points(Times(sigma((nodeCount - 5) as real), rate) * 0.20)
        && SignalsOf(f) == [Signal(SuspiciousCluster, PointsOf(f))]
      else PointsOf(f) == 0 && SignalsOf(f) == []
  {
  }

  lemma ClusterIsRead(g: Graph, x: EntityId, asOf: Option<Time>, sigma: real -> real, cluster: ClusterAnalysis)
    requires x in g.nodes && cluster == Analysed(g, ClusterAround(g, x, asOf, 2, MAX_NODES))
    ensures ClusterRule(cluster.nodeCount, cluster.failureRate, sigma) == ClusterFinding(ReadingOf(g, x, asOf), sigma)
  {
    hide ClusterAround, Sum, Seen, Tally, PropagatedRisk, ClusterRule, FailureRate;
  }

  /** The signals add up to the two scores accumulated beside them. */
  lemma RulesAreAttributed(
    g: Graph, x: EntityId, asOf: Option<Time>, sigma: real -> real, rules: seq<Signal>, one: seq<Signal>,
    two: seq<Signal>, last: Finding)
    requires x in g.nodes
    requires var r := ReadingOf(g, x, asOf);
      rules == SignalsOf(r.prior) + SignalsOf(EntityRules(r, sigma).0) + SignalsOf(EntityRules(r, sigma).1)
    ensures var r := ReadingOf(g, x, asOf);
      Attributed(rules + one + two + SignalsOf(last))
      == PointsOf(r.prior) + PointsOf(EntityRules(r, sigma).0) + PointsOf(EntityRules(r, sigma).1)
         + Attributed(one) + Attributed(two) + PointsOf(last)
  {
    hide ReadingOf, EntityRules;
    var r := ReadingOf(g, x, asOf);
    var kind, failure := EntityRules(r, sigma).0, EntityRules(r, sigma).1;
    AttributedInParts(rules, one, two, SignalsOf(last));
    AttributedAppend(SignalsOf(r.prior) + SignalsOf(kind), SignalsOf(failure));
    AttributedAppend(SignalsOf(r.prior), SignalsOf(kind));
    OneSignal(r.prior);
    OneSignal(kind);
    OneSignal(failure);
    OneSignal(last);
  }

  /** Put together they are the signals the specification names, each once. */
  lemma SignalsAreAll(
    g: Graph, x: EntityId, asOf: Option<Time>, sigma: real -> real, rules: seq<Signal>, one: seq<Signal>,
    two: seq<Signal>, last: Finding)
    requires x in g.nodes && last == ClusterFinding(ReadingOf(g, x, asOf), sigma)
    requires var r := ReadingOf(g, x, asOf);
      rules == SignalsOf(r.prior) + SignalsOf(EntityRules(r, sigma).0) + SignalsOf(EntityRules(r, sigma).1)
    requires var hops := NeighborsByHop(g, x, asOf, 2, MAX_NODES);
      && multiset(one) == HopSignals(g, asOf, 0.40, 0.50, OneHopNeighbor, hops.one)
      && multiset(two) == HopSignals(g, asOf, 0.60, 0.25, TwoHopNeighbor, hops.two)
    ensures multiset(rules + one + two + SignalsOf(last)) == AllSignals(g, x, asOf, sigma)
  {
    hide ReadingOf, EntityRules, ClusterFinding, SignalsOf, HopSignals, NeighborsByHop;
  }

  lemma OneSignal(f: Finding)
    ensures Attributed(SignalsOf(f)) == PointsOf(f)
  {
    if f.Fires? {
      AttributedNext([], Signal(f.rule, f.points));
    }
  }

  lemma Unexplained(g: Graph, x: EntityId, asOf: Option<Time>, sigma: real -> real)
    requires NodeAsOf(g, x, asOf).None?
    ensures Explains(Assessment(0, Low, 0, 0, []), g, x, asOf, sigma)
  {
  }

  lemma NodeIsKnown(graph: EntityGraph, x: EntityId, asOf: Option<Time>, node: Option<EntityNode>)
    requires graph.Valid() && node.Some? && NodeAsOf(graph.view, x, asOf).Some?
    requires x in graph.nodes && node.value == graph.nodes[x]
    ensures x in graph.view.nodes && node.value.entityId == x
  {
    assert node.value.Value() == graph.view.nodes[x];
  }

  lemma Explained(g: Graph, x: EntityId, asOf: Option<Time>, sigma: real -> real, r: Assessment)
    requires NodeAsOf(g, x, asOf).Some? && x in g.nodes
    requires var hops := NeighborsByHop(g, x, asOf, 2, MAX_NODES);
      r.propagated == Sum(hops.one, Share(g, asOf, 0.40, 0.50)) + Sum(hops.two, Share(g, asOf, 0.60, 0.25))
    requires var d := ReadingOf(g, x, asOf);
      r.direct == PointsOf(d.prior) + PointsOf(EntityRules(d, sigma).0) + PointsOf(EntityRules(d, sigma).1)
                  + PointsOf(ClusterFinding(d, sigma))
    requires multiset(r.signals) == AllSignals(g, x, asOf, sigma)
    requires Attributed(r.signals) == r.direct + r.propagated
    requires r.score == if r.direct + r.propagated < 10000 then r.direct + r.propagated else 10000
    requires r.level == LevelOf(r.score)
    ensures Explains(r, g, x, asOf, sigma)
  {
    hide ReadingOf, EntityRules, ClusterFinding, Sum, Share, NodeAsOf, Attributed, LevelOf, AllSignals;
  }

  lemma AttributedInParts(a: seq<Signal>, b: seq<Signal>, c: seq<Signal>, d: seq<Signal>)
    ensures Attributed(a + b + c + d) == Attributed(a) + Attributed(b) + Attributed(c) + Attributed(d)
  {
    AttributedAppend(a, b);
    AttributedAppend(a + b, c);
    AttributedAppend(a + b + c, d);
  }

  lemma {:induction false} AttributedAppend(a: seq<Signal>, b: seq<Signal>)
    ensures Attributed(a + b) == Attributed(a) + Attributed(b)
    decreases |b|
  {
    if b == [] {
      assert a + b == a;
    } else {
      assert (a + b)[..|a + b| - 1] == a + b[..|b| - 1];
      AttributedAppend(a, b[..|b| - 1]);
    }
  }

  // ----- what the propagated part depends on

  lemma ShareMonotone(m: Option<NodeVal>, n: Option<NodeVal>, floor: real, share: real)
    requires floor >= 0.0 && share >= 0.0
    requires m.Some? ==> n.Some? && m.value.risk <= n.value.risk
    ensures ShareOf(m, floor, share) <= ShareOf(n, floor, share)
  {
    if m.Some? && m.value.risk >= floor {
      PartMonotone(m.value.risk, n.value.risk, share);
    } else if n.Some? && n.value.risk >= floor {
      PartMonotone(0.0, n.value.risk, share);
    }
  }

  lemma PartMonotone(a: real, b: real, share: real)
    requires 0.0 <= a <= b && share >= 0.0
    ensures 0 <= PartOf(a, share) <= PartOf(b, share)
  {
    var x, y := a * share, b * share;
    assert 0.0 <= x <= y;
    RoundMonotone(x * 10000.0, y * 10000.0);
    RoundMonotone(0.0, x * 10000.0);
    RoundOfInteger(0);
  }

  /** Both graphs have the same hop sets at the cut, and every node known in `g` is known
      in `h` with at least its base score. */
  ghost predicate RiskAtMost(g: Graph, h: Graph, x: EntityId, asOf: Option<Time>) {
    && NeighborsByHop(g, x, asOf, 2, MAX_NODES) == NeighborsByHop(h, x, asOf, 2, MAX_NODES)
    && forall v | NodeAsOf(g, v, asOf).Some? ::
         NodeAsOf(h, v, asOf).Some? && NodeAsOf(g, v, asOf).value.risk <= NodeAsOf(h, v, asOf).value.risk
  }

  lemma PropagationRises(g: Graph, h: Graph, x: EntityId, asOf: Option<Time>)
    requires RiskAtMost(g, h, x, asOf)
    ensures PropagatedRisk(g, x, asOf) <= PropagatedRisk(h, x, asOf)
  {
    var hops := NeighborsByHop(g, x, asOf, 2, MAX_NODES);
    forall v ensures OneHopShare(g, asOf)(v) <= OneHopShare(h, asOf)(v)
             ensures TwoHopShare(g, asOf)(v) <= TwoHopShare(h, asOf)(v) {
      ShareMonotone(NodeAsOf(g, v, asOf), NodeAsOf(h, v, asOf), 0.40, 0.50);
      ShareMonotone(NodeAsOf(g, v, asOf), NodeAsOf(h, v, asOf), 0.60, 0.25);
    }
    SumMonotone(hops.one, OneHopShare(g, asOf), OneHopShare(h, asOf));
    SumMonotone(hops.two, TwoHopShare(g, asOf), TwoHopShare(h, asOf));
  }

  /** Raise the base score of one known node, edges untouched. */
  function Raised(g: Graph, v: EntityId, risk: real): Graph
    requires v in g.nodes
  {
    g.(nodes := g.nodes[v := g.nodes[v].(risk := risk)])
  }

  /** Raising any node's base score never lowers what is propagated to any entity. */
  lemma RaisingNeverLowers(g: Graph, v: EntityId, risk: real, x: EntityId, asOf: Option<Time>)
    requires v in g.nodes && risk >= g.nodes[v].risk
    ensures PropagatedRisk(g, x, asOf) <= PropagatedRisk(Raised(g, v, risk), x, asOf)
  {
    var h := Raised(g, v, risk);
    RaisedSameAt(g, v, risk, asOf);
    SameSearch(g, h, asOf, 2, MAX_NODES, Start(x));
    hide SearchFrom, Explore;
    assert NeighborsByHop(g, x, asOf, 2, MAX_NODES) == NeighborsByHop(h, x, asOf, 2, MAX_NODES) by {
      assert SearchFrom(g, x, asOf, 2, MAX_NODES) == SearchFrom(h, x, asOf, 2, MAX_NODES) by { SameStart(g, h, x, asOf); }
    }
    hide NeighborsByHop;
    PropagationRises(g, h, x, asOf);
  }

  lemma SameStart(g: Graph, h: Graph, x: EntityId, asOf: Option<Time>)
    requires Explore(g, asOf, 2, MAX_NODES, Start(x)) == Explore(h, asOf, 2, MAX_NODES, Start(x))
    ensures SearchFrom(g, x, asOf, 2, MAX_NODES) == SearchFrom(h, x, asOf, 2, MAX_NODES)
  {
  }

  lemma RaisedSameAt(g: Graph, v: EntityId, risk: real, asOf: Option<Time>)
    requires v in g.nodes
    ensures SameAt(g, Raised(g, v, risk), asOf)
  {
    var h := Raised(g, v, risk);
    forall y ensures Incident(g, y, asOf) == Incident(h, y, asOf) {
      SameEdgesSameList(g, h, Touching(g, y), asOf);
    }
  }

  lemma {:induction false} SameEdgesSameList(g: Graph, h: Graph, ks: seq<EdgeId>, asOf: Option<Time>)
    requires g.edges == h.edges
    ensures VisibleOf(g, ks, asOf) == VisibleOf(h, ks, asOf)
  {
    if ks == [] {
    } else {
      SameEdgesSameList(g, h, ks[..|ks| - 1], asOf);
    }
  }

  /** The score in terms of what was read. */
  lemma ScoreOfReading(g: Graph, x: EntityId, asOf: Option<Time>, sigma: real -> real)
    requires x in g.nodes
    ensures var r := ReadingOf(g, x, asOf);
      AssessedScore(g, x, asOf, sigma) ==
      if NodeAsOf(g, x, asOf).None? then 0 else Capped(DirectPoints(r, sigma) + r.propagated)
  {
    hide DirectPoints, PropagatedRisk, Seen, Tally, Sum, KnownIn, ClusterAround, PriorRule, Capped;
  }

  // ----- the score lies between 0 and 1

  ghost predicate IsCurve(sigma: real -> real) { forall z: real :: 0.0 <= sigma(z) <= 1.0 }

  ghost predicate CountersNonNegative(g: Graph) {
    forall k | k in g.edges :: g.edges[k].successes >= 0 && g.edges[k].failures >= 0
  }

  lemma {:induction false} TallyZero(f: EdgeId -> int, ks: seq<EdgeId>)
    requires forall i | 0 <= i < |ks| :: f(ks[i]) == 0
    ensures Tally(f, ks) == 0
  {
    if ks == [] {
    } else {
      TallyZero(f, ks[..|ks| - 1]);
    }
  }

  lemma {:induction false} TallyNonNegative(f: EdgeId -> int, ks: seq<EdgeId>)
    requires forall k :: f(k) >= 0
    ensures Tally(f, ks) >= 0
  {
    if ks == [] {
    } else {
      TallyNonNegative(f, ks[..|ks| - 1]);
    }
  }

  lemma RateNonNegative(successes: int, failures: int)
    requires successes >= 0 && failures >= 0
    ensures FailureRate(successes, failures) >= 0.0
  {
    if successes + failures > 0 {
      DivMonotone(0, failures, successes + failures);
    }
  }

  lemma TimesNonNegative(x: real, y: real)
    requires x >= 0.0 && y >= 0.0
    ensures Times(x, y) >= 0.0
  {
  }

  lemma KindPointsNonNegative(
    kind: EntityKind, merchants: int, accounts: int, devices: int, rate: real, sigma: real -> real)
    requires IsCurve(sigma) && rate >= 0.0
    ensures PointsOf(KindRule(kind, merchants, accounts, devices, rate, sigma)) >= 0
  {
    hide Times, Points;
    var curve := sigma(if kind == Account then (devices + merchants - 4) as real else (merchants + accounts - 4) as real);
    TimesNonNegative(curve, 0.6 + (1.0 - 0.6) * rate);
    TimesNonNegative(curve, 0.5 + (1.0 - 0.5) * rate);
    PointsNonNegative(Grown(curve, 0.6, rate) * 0.50);
    PointsNonNegative(Grown(curve, 0.6, rate) * 0.45);
    PointsNonNegative(Grown(curve, 0.5, rate) * 0.45);
  }

  lemma OtherPointsNonNegative(outcomes: int, nodeCount: int, rate: real, sigma: real -> real)
    requires IsCurve(sigma) && rate >= 0.0
    ensures PointsOf(FailureRule(outcomes, rate, sigma)) >= 0 && PointsOf(ClusterRule(nodeCount, rate, sigma)) >= 0
  {
    hide Times, Points;
    PointsNonNegative(sigma(5.0 * (rate - 0.5)) * 0.30);
    TimesNonNegative(sigma((nodeCount - 5) as real), rate);
    PointsNonNegative(Times(sigma((nodeCount - 5) as real), rate) * 0.20);
  }

  lemma PropagatedNonNegative(g: Graph, x: EntityId, asOf: Option<Time>)
    ensures PropagatedRisk(g, x, asOf) >= 0
  {
    hide NeighborsByHop;
    var hops := NeighborsByHop(g, x, asOf, 2, MAX_NODES);
    forall v ensures OneHopShare(g, asOf)(v) >= 0 && TwoHopShare(g, asOf)(v) >= 0 {
      ShareMonotone(None, NodeAsOf(g, v, asOf), 0.40, 0.50);
      ShareMonotone(None, NodeAsOf(g, v, asOf), 0.60, 0.25);
    }
    SumNonNegative(hops.one, OneHopShare(g, asOf));
    SumNonNegative(hops.two, TwoHopShare(g, asOf));
  }

  lemma DirectNonNegative(r: Reading, sigma: real -> real)
    requires IsCurve(sigma) && r.successes >= 0 && r.failures >= 0 && r.clusterSuccesses >= 0 && r.clusterFailures >= 0
    ensures DirectPoints(r, sigma) >= PointsOf(r.prior)
  {
    hide IsCurve, KindRule, FailureRule, ClusterRule;
    RateNonNegative(r.successes, r.failures);
    RateNonNegative(r.clusterSuccesses, r.clusterFailures);
    var rate, other := FailureRate(r.successes, r.failures), FailureRate(r.clusterSuccesses, r.clusterFailures);
    KindPointsNonNegative(r.kind, r.merchants, r.accounts, r.devices, rate, sigma);
    OtherPointsNonNegative(r.successes + r.failures, 0, rate, sigma);
    OtherPointsNonNegative(0, r.clusterNodes, other, sigma);
  }

  lemma ReadingNonNegative(g: Graph, x: EntityId, asOf: Option<Time>)
    requires x in g.nodes && CountersNonNegative(g)
    ensures var r := ReadingOf(g, x, asOf);
      && r.successes >= 0 && r.failures >= 0 && r.clusterSuccesses >= 0 && r.clusterFailures >= 0
      && r.prior == PriorRule(g.nodes[x], asOf)
  {
    hide ClusterAround, PropagatedRisk, Seen, KnownIn, PriorRule;
    var c := ClusterAround(g, x, asOf, 2, MAX_NODES);
    forall k ensures SuccessesIn(g)(k) >= 0 && FailuresIn(g)(k) >= 0 {
    }
    TallyNonNegative(SuccessesIn(g), Incident(g, x, asOf));
    TallyNonNegative(FailuresIn(g), Incident(g, x, asOf));
    SumNonNegative(c.edges, SuccessesIn(g));
    SumNonNegative(c.edges, FailuresIn(g));
  }

  /** With a curve into [0, 1] and no negative counter every score lies in [0, 1], and is at
      least the base score of a prior investigation that counts. */
  lemma ScoreInUnit(g: Graph, x: EntityId, asOf: Option<Time>, sigma: real -> real)
    requires IsCurve(sigma) && CountersNonNegative(g)
    ensures 0 <= AssessedScore(g, x, asOf, sigma) <= 10000
    ensures NodeAsOf(g, x, asOf).Some? ==>
              x in g.nodes && AssessedScore(g, x, asOf, sigma) >= Capped(PointsOf(PriorRule(g.nodes[x], asOf)))
  {
    hide IsCurve, CountersNonNegative, DirectPoints, PropagatedRisk;
    if NodeAsOf(g, x, asOf).Some? {
      assert x in g.nodes;
      ReadingNonNegative(g, x, asOf);
      hide ReadingOf;
      DirectNonNegative(ReadingOf(g, x, asOf), sigma);
      PropagatedNonNegative(g, x, asOf);
      if g.nodes[x].risk > 0.0 {
        PointsNonNegative(g.nodes[x].risk);
      }
    }
  }

  ghost predicate UpdatesNonNegative(us: seq<Update>) {
    forall i | 0 <= i < |us| :: us[i].EdgeUpdate? ==> us[i].edge.successes >= 0 && us[i].edge.failures >= 0
  }

  /** Counters only ever grow. */
  lemma {:induction false} RunKeepsCountersNonNegative(g: Graph, us: seq<Update>)
    requires CountersNonNegative(g) && UpdatesNonNegative(us)
    ensures CountersNonNegative(ApplyAll(g, us))
  {
    if us == [] {
    } else {
      RunKeepsCountersNonNegative(g, us[..|us| - 1]);
    }
  }
}
