/** What each rule of the assessment adds, read off the finished assessment: which signals it
    carries, with how many points, in terms of what the graph holds. */
module DirectRules {
  import opened Options
  import opened Numeric
  import opened GraphModel
  import opened SetSums
  import opened Traversal
  import opened CrossMerchantRisk

  /** The assessment carries the signal of `rule`, once and with these points, if and only if
      it `fires`. */
  ghost predicate Carries(r: Assessment, rule: Rule, fires: bool, points: int) {
    forall c :: multiset(r.signals)[Signal(rule, c)] == if fires && c == points then 1 else 0
  }

  /** Four digits, in ten-thousandths. */
  function Digits(x: real): int { RoundHalfEven(x * 10000.0) }

  function RateOf(failures: int, outcomes: int): real {
    if outcomes > 0 then failures as real / outcomes as real else 0.0
  }

  /** What an assessment reads of the graph. */
  lemma CountsRead(g: Graph, x: EntityId, asOf: Option<Time>)
    requires x in g.nodes
    ensures var d, cluster := ReadingOf(g, x, asOf), ClusterAround(g, x, asOf, 2, 200);
      && d.kind == g.nodes[x].kind && d.prior == PriorRule(g.nodes[x], asOf)
      && d.merchants == |Seen(g, x, asOf, Merchant)| && d.accounts == |Seen(g, x, asOf, Account)|
      && d.devices == |Seen(g, x, asOf, Device)|
      && d.successes == Tally(SuccessesIn(g), Incident(g, x, asOf))
      && d.failures == Tally(FailuresIn(g), Incident(g, x, asOf))
      && d.clusterNodes == |set v | v in cluster.visited && v in g.nodes|
      && d.clusterSuccesses == Sum(cluster.edges, SuccessesIn(g))
      && d.clusterFailures == Sum(cluster.edges, FailuresIn(g))
  {
    hide Seen, Tally, PriorRule, ClusterAround, PropagatedRisk, Sum;
  }

  /** The ids counted: the other ends of edges first seen at the cut or before that are themselves
      nodes of the kind first seen at the cut or before. */
  lemma SeenExactly(g: Graph, x: EntityId, asOf: Option<Time>, kind: EntityKind, v: EntityId)
    requires Coherent(g)
    ensures v in Seen(g, x, asOf, kind) <==>
            && v in g.nodes && g.nodes[v].kind == kind && (asOf.Some? ==> g.nodes[v].first <= asOf.value)
            && exists k :: k in g.edges && (asOf.Some? ==> g.edges[k].first <= asOf.value) && Joins(g.edges[k], x, v)
  {
    NeighborsAreLinked(g, x, v, asOf);
    hide Coherent, Neighbors;
    if Linked(g, asOf, x, v) {
      var k :| k in g.edges && VisibleAt(g.edges[k], asOf) && Joins(g.edges[k], x, v);
      assert k in g.edges && (asOf.Some? ==> g.edges[k].first <= asOf.value) && Joins(g.edges[k], x, v);
    }
    if k :| k in g.edges && (asOf.Some? ==> g.edges[k].first <= asOf.value) && Joins(g.edges[k], x, v) {
      assert VisibleAt(g.edges[k], asOf);
    }
  }

  // ----- the findings, one by one

  /** The finding is that of `rule` if and only if it `fires`, and then has these points. */
  predicate Shows(f: Finding, rule: Rule, fires: bool, points: int) {
    (f.Fires? && f.rule == rule <==> fires) && (fires ==> f.points == points)
  }

  lemma RateMeans(successes: int, failures: int)
    ensures FailureRate(successes, failures) == RateOf(failures, successes + failures)
  {
  }

  lemma GrownInTenths(curve: real, rate: real)
    ensures Grown(curve, 0.6, rate) == curve * (0.6 + 0.4 * rate)
    ensures Grown(curve, 0.5, rate) == curve * (0.5 + 0.5 * rate)
  {
    assert 0.6 + (1.0 - 0.6) * rate == 0.6 + 0.4 * rate;
    assert Times(curve, 0.6 + (1.0 - 0.6) * rate) == Times(curve, 0.6 + 0.4 * rate);
    assert 0.5 + (1.0 - 0.5) * rate == 0.5 + 0.5 * rate;
    assert Times(curve, 0.5 + (1.0 - 0.5) * rate) == Times(curve, 0.5 + 0.5 * rate);
  }

  lemma PriorFinding(n: NodeVal, asOf: Option<Time>)
    ensures Shows(PriorRule(n, asOf), PriorInvestigation, n.risk > 0.0 && (asOf.Some? ==> n.last <= asOf.value), Digits(n.risk))
  {
  }

  /** The rule of the entity's kind; `met` and `rotated` are what the curve makes of the counts. */
  lemma KindFindings(
    d: Reading, sigma: real -> real, rate: real, met: real, metHalf: real, rotated: real)
    requires rate == FailureRate(d.successes, d.failures)
    requires met == Grown(sigma((d.merchants + d.accounts - 4) as real), 0.6, rate)
    requires metHalf == Grown(sigma((d.merchants + d.accounts - 4) as real), 0.5, rate)
    requires rotated == Grown(sigma((d.devices + d.merchants - 4) as real), 0.6, rate)
    ensures var f := EntityRules(d, sigma).0;
      && Shows(f, DeviceReuse, d.kind == Device && d.merchants >= 2 && !(d.accounts <= 3 && rate == 0.0) && met > 0.25,
               Digits(met * 0.50))
      && Shows(f, IpFailureCluster, d.kind == Ip && (d.merchants >= 2 || d.accounts >= 3) && rate >= 0.30,
               Digits(metHalf * 0.45))
      && Shows(f, AccountRotation, d.kind == Account && (d.devices >= 3 || d.merchants >= 3), Digits(rotated * 0.45))
  {
    hide FailureRate, Grown;
  }

  lemma OutcomeFindings(d: Reading, sigma: real -> real, rate: real, clusterRate: real, score: real)
    requires rate == FailureRate(d.successes, d.failures)
    requires clusterRate == FailureRate(d.clusterSuccesses, d.clusterFailures)
    requires score == Times(sigma((d.clusterNodes - 5) as real), clusterRate)
    ensures Shows(EntityRules(d, sigma).1, FailureConcentration, d.successes + d.failures >= 3 && rate >= 0.50,
                  Digits(sigma(5.0 * (rate - 0.5)) * 0.30))
    ensures Shows(ClusterFinding(d, sigma), SuspiciousCluster, d.clusterNodes >= 5 && clusterRate >= 0.60, Digits(score * 0.20))
  {
    hide FailureRate, Times, KindRule;
  }

  /** No rule speaks for another. */
  lemma FindingsOfKind(d: Reading, n: NodeVal, asOf: Option<Time>, sigma: real -> real)
    ensures PriorRule(n, asOf).Fires? ==> PriorRule(n, asOf).rule == PriorInvestigation
    ensures var f := EntityRules(d, sigma).0;
      f.Fires? ==> f.rule == DeviceReuse || f.rule == IpFailureCluster || f.rule == AccountRotation
    ensures var f := EntityRules(d, sigma).1; f.Fires? ==> f.rule == FailureConcentration
    ensures ClusterFinding(d, sigma).Fires? ==> ClusterFinding(d, sigma).rule == SuspiciousCluster
  {
    hide FailureRate, Grown, Points, Times;
  }

  // ----- the signals

  lemma CountOfFinding(f: Finding, s: Signal)
    ensures multiset(SignalsOf(f))[s] == if f.Fires? && s == Signal(f.rule, f.points) then 1 else 0
  {
  }

  lemma {:induction false} HopSignalsOfRule(
    g: Graph, asOf: Option<Time>, floor: real, share: real, rule: Rule, hop: set<EntityId>, s: Signal)
    requires s.rule != rule
    ensures HopSignals(g, asOf, floor, share, rule, hop)[s] == 0
  {
    hide PartOf;
    if hop == {} {
    } else {
      var v :| v in hop && HopSignals(g, asOf, floor, share, rule, hop)
        == SignalOf(g, asOf, floor, share, rule, v) + HopSignals(g, asOf, floor, share, rule, hop - {v});
      assert SignalOf(g, asOf, floor, share, rule, v)[s] == 0;
      HopSignalsOfRule(g, asOf, floor, share, rule, hop - {v}, s);
    }
  }

  lemma SignalsOfRule(r: Assessment, g: Graph, x: EntityId, asOf: Option<Time>, sigma: real -> real, s: Signal)
    requires Explains(r, g, x, asOf, sigma) && NodeAsOf(g, x, asOf).Some?
    requires s.rule != OneHopNeighbor && s.rule != TwoHopNeighbor
    ensures var d := ReadingOf(g, x, asOf);
      multiset(r.signals)[s]
      == multiset(SignalsOf(d.prior))[s] + multiset(SignalsOf(EntityRules(d, sigma).0))[s]
         + multiset(SignalsOf(EntityRules(d, sigma).1))[s] + multiset(SignalsOf(ClusterFinding(d, sigma)))[s]
  {
    var hops := NeighborsByHop(g, x, asOf, 2, MAX_NODES);
    HopSignalsOfRule(g, asOf, 0.40, 0.50, OneHopNeighbor, hops.one, s);
    HopSignalsOfRule(g, asOf, 0.60, 0.25, TwoHopNeighbor, hops.two, s);
    hide SignalsOf, HopSignals, ReadingOf, EntityRules, ClusterFinding, NeighborsByHop, DirectRisk, AssessedScore,
      PropagatedRisk, Attributed;
  }

  /** The finding that speaks for a rule. */
  ghost function FindingOf(g: Graph, x: EntityId, asOf: Option<Time>, sigma: real -> real, rule: Rule): Finding
    requires x in g.nodes
  {
    var d := ReadingOf(g, x, asOf);
    match rule
    case PriorInvestigation => PriorRule(g.nodes[x], asOf)
    case FailureConcentration => EntityRules(d, sigma).1
    case SuspiciousCluster => ClusterFinding(d, sigma)
    case _ => EntityRules(d, sigma).0
  }

  lemma SignalsOfFinding(
    r: Assessment, g: Graph, x: EntityId, asOf: Option<Time>, sigma: real -> real, rule: Rule, c: int)
    requires Explains(r, g, x, asOf, sigma) && NodeAsOf(g, x, asOf).Some? && x in g.nodes
    requires rule != OneHopNeighbor && rule != TwoHopNeighbor
    ensures var f := FindingOf(g, x, asOf, sigma, rule);
      multiset(r.signals)[Signal(rule, c)] == if f.Fires? && f.rule == rule && c == f.points then 1 else 0
  {
    hide *;
    var d, s := ReadingOf(g, x, asOf), Signal(rule, c);
    FindingsAre(g, x, asOf, sigma);
    SignalsOfRule(r, g, x, asOf, sigma, s);
    CountsRead(g, x, asOf);
    FindingsOfKind(d, g.nodes[x], asOf, sigma);
    CountOfFinding(d.prior, s);
    CountOfFinding(EntityRules(d, sigma).0, s);
    CountOfFinding(EntityRules(d, sigma).1, s);
    CountOfFinding(ClusterFinding(d, sigma), s);
  }

  lemma FindingIsCarried(
    r: Assessment, g: Graph, x: EntityId, asOf: Option<Time>, sigma: real -> real, rule: Rule, fires: bool, points: int)
    requires Explains(r, g, x, asOf, sigma) && NodeAsOf(g, x, asOf).Some? && x in g.nodes
    requires rule != OneHopNeighbor && rule != TwoHopNeighbor
    requires Shows(FindingOf(g, x, asOf, sigma, rule), rule, fires, points)
    ensures Carries(r, rule, fires, points)
  {
    hide Explains, FindingOf, NodeAsOf;
    forall c ensures multiset(r.signals)[Signal(rule, c)] == if fires && c == points then 1 else 0 {
      SignalsOfFinding(r, g, x, asOf, sigma, rule, c);
    }
  }

  lemma FindingsAre(g: Graph, x: EntityId, asOf: Option<Time>, sigma: real -> real)
    requires x in g.nodes
    ensures var d := ReadingOf(g, x, asOf);
      && FindingOf(g, x, asOf, sigma, PriorInvestigation) == PriorRule(g.nodes[x], asOf)
      && FindingOf(g, x, asOf, sigma, DeviceReuse) == FindingOf(g, x, asOf, sigma, IpFailureCluster)
         == FindingOf(g, x, asOf, sigma, AccountRotation) == EntityRules(d, sigma).0
      && FindingOf(g, x, asOf, sigma, FailureConcentration) == EntityRules(d, sigma).1
      && FindingOf(g, x, asOf, sigma, SuspiciousCluster) == ClusterFinding(d, sigma)
  {
    hide ReadingOf, EntityRules, ClusterFinding, PriorRule;
  }

  lemma RulesBy(
    r: Assessment, g: Graph, x: EntityId, asOf: Option<Time>, sigma: real -> real, rate: real, clusterRate: real,
    device: real, ip: real, account: real, cluster: real)
    requires Explains(r, g, x, asOf, sigma) && NodeAsOf(g, x, asOf).Some? && x in g.nodes
    requires var d := ReadingOf(g, x, asOf);
      && rate == FailureRate(d.successes, d.failures)
      && clusterRate == FailureRate(d.clusterSuccesses, d.clusterFailures)
      && device == Grown(sigma((d.merchants + d.accounts - 4) as real), 0.6, rate)
      && ip == Grown(sigma((d.merchants + d.accounts - 4) as real), 0.5, rate)
      && account == Grown(sigma((d.devices + d.merchants - 4) as real), 0.6, rate)
      && cluster == Times(sigma((d.clusterNodes - 5) as real), clusterRate)
    ensures var n, d := g.nodes[x], ReadingOf(g, x, asOf);
      && Carries(r, PriorInvestigation, n.risk > 0.0 && (asOf.Some? ==> n.last <= asOf.value), Digits(n.risk))
      && Carries(r, DeviceReuse,
                 d.kind == Device && d.merchants >= 2 && !(d.accounts <= 3 && rate == 0.0) && device > 0.25,
                 Digits(device * 0.50))
      && Carries(r, IpFailureCluster, d.kind == Ip && (d.merchants >= 2 || d.accounts >= 3) && rate >= 0.30,
                 Digits(ip * 0.45))
      && Carries(r, AccountRotation, d.kind == Account && (d.devices >= 3 || d.merchants >= 3), Digits(account * 0.45))
      && Carries(r, FailureConcentration, d.successes + d.failures >= 3 && rate >= 0.50,
                 Digits(sigma(5.0 * (rate - 0.5)) * 0.30))
      && Carries(r, SuspiciousCluster, d.clusterNodes >= 5 && clusterRate >= 0.60, Digits(cluster * 0.20))
  {
    hide *;
    FindingsAre(g, x, asOf, sigma);
    var n, d := g.nodes[x], ReadingOf(g, x, asOf);
    PriorFinding(n, asOf);
    KindFindings(d, sigma, rate, device, ip, account);
    OutcomeFindings(d, sigma, rate, clusterRate, cluster);
    FindingIsCarried(r, g, x, asOf, sigma, PriorInvestigation, n.risk > 0.0 && (asOf.Some? ==> n.last <= asOf.value), Digits(n.risk));
    FindingIsCarried(
      r, g, x, asOf, sigma, DeviceReuse,
      d.kind == Device && d.merchants >= 2 && !(d.accounts <= 3 && rate == 0.0) && device > 0.25, Digits(device * 0.50));
    FindingIsCarried(
      r, g, x, asOf, sigma, IpFailureCluster, d.kind == Ip && (d.merchants >= 2 || d.accounts >= 3) && rate >= 0.30,
      Digits(ip * 0.45));
    FindingIsCarried(
      r, g, x, asOf, sigma, AccountRotation, d.kind == Account && (d.devices >= 3 || d.merchants >= 3), Digits(account * 0.45));
    FindingIsCarried(
      r, g, x, asOf, sigma, FailureConcentration, d.successes + d.failures >= 3 && rate >= 0.50,
      Digits(sigma(5.0 * (rate - 0.5)) * 0.30));
    FindingIsCarried(
      r, g, x, asOf, sigma, SuspiciousCluster, d.clusterNodes >= 5 && clusterRate >= 0.60, Digits(cluster * 0.20));
  }

  /** Every direct rule, read off any assessment: its signal is carried exactly when the counts
      call for it, with exactly these points. `device`, `ip`, `account` and `cluster` are what the
      curve and the failure rates make of the counts. */
  lemma RulesExactly(
    r: Assessment, g: Graph, x: EntityId, asOf: Option<Time>, sigma: real -> real, rate: real, clusterRate: real,
    device: real, ip: real, account: real, cluster: real)
    requires Explains(r, g, x, asOf, sigma) && NodeAsOf(g, x, asOf).Some? && x in g.nodes
    requires var d := ReadingOf(g, x, asOf);
      && rate == RateOf(d.failures, d.successes + d.failures)
      && clusterRate == RateOf(d.clusterFailures, d.clusterSuccesses + d.clusterFailures)
      && device == sigma((d.merchants + d.accounts - 4) as real) * (0.6 + 0.4 * rate)
      && ip == sigma((d.merchants + d.accounts - 4) as real) * (0.5 + 0.5 * rate)
      && account == sigma((d.devices + d.merchants - 4) as real) * (0.6 + 0.4 * rate)
      && cluster == sigma((d.clusterNodes - 5) as real) * clusterRate
    ensures var n, d := g.nodes[x], ReadingOf(g, x, asOf);
      && Carries(r, PriorInvestigation, n.risk > 0.0 && (asOf.Some? ==> n.last <= asOf.value), Digits(n.risk))
      && Carries(r, DeviceReuse,
                 d.kind == Device && d.merchants >= 2 && !(d.accounts <= 3 && rate == 0.0) && device > 0.25,
                 Digits(device * 0.50))
      && Carries(r, IpFailureCluster, d.kind == Ip && (d.merchants >= 2 || d.accounts >= 3) && rate >= 0.30,
                 Digits(ip * 0.45))
      && Carries(r, AccountRotation, d.kind == Account && (d.devices >= 3 || d.merchants >= 3), Digits(account * 0.45))
      && Carries(r, FailureConcentration, d.successes + d.failures >= 3 && rate >= 0.50,
                 Digits(sigma(5.0 * (rate - 0.5)) * 0.30))
      && Carries(r, SuspiciousCluster, d.clusterNodes >= 5 && clusterRate >= 0.60, Digits(cluster * 0.20))
  {
    hide *;
    var d := ReadingOf(g, x, asOf);
    RateMeans(d.successes, d.failures);
    RateMeans(d.clusterSuccesses, d.clusterFailures);
    GrownInTenths(sigma((d.merchants + d.accounts - 4) as real), rate);
    GrownInTenths(sigma((d.devices + d.merchants - 4) as real), rate);
    TimesIs(sigma((d.clusterNodes - 5) as real), clusterRate);
    RulesBy(r, g, x, asOf, sigma, rate, clusterRate, device, ip, account, cluster);
  }

  lemma TimesIs(a: real, b: real)
    ensures Times(a, b) == a * b
  {
  }

  // ----- the rest of the assessment

  /** A share of a score, to four digits. */
  function Portion(risk: real, share: real): int { RoundHalfEven(risk * share * 10000.0) }

  /** What a known neighbour passes on: a share of its base score, from a floor upwards. */
  function Passes(g: Graph, asOf: Option<Time>, floor: real, share: real): EntityId -> int {
    v =>
      if v in g.nodes && (asOf.Some? ==> g.nodes[v].first <= asOf.value) && g.nodes[v].risk >= floor
      then Portion(g.nodes[v].risk, share) else 0
  }

  /** Half of the scores from 0.40 at hop 1, a quarter of those from 0.60 at hop 2; the score is
      what rules and neighbours add up to, at most 1, high from 0.70 and medium from 0.30. */
  lemma PropagationExactly(r: Assessment, g: Graph, x: EntityId, asOf: Option<Time>, sigma: real -> real)
    requires Explains(r, g, x, asOf, sigma) && NodeAsOf(g, x, asOf).Some?
    ensures var hops := NeighborsByHop(g, x, asOf, 2, 200);
      r.propagated == Sum(hops.one, Passes(g, asOf, 0.40, 0.50)) + Sum(hops.two, Passes(g, asOf, 0.60, 0.25))
    ensures r.score == (if r.direct + r.propagated < 10000 then r.direct + r.propagated else 10000)
    ensures r.level == if r.score >= 7000 then High else if r.score >= 3000 then Medium else Low
  {
    var hops := NeighborsByHop(g, x, asOf, 2, 200);
    SharesArePassed(g, asOf, 0.40, 0.50);
    SharesArePassed(g, asOf, 0.60, 0.25);
    SumSame(hops.one, Share(g, asOf, 0.40, 0.50), Passes(g, asOf, 0.40, 0.50));
    SumSame(hops.two, Share(g, asOf, 0.60, 0.25), Passes(g, asOf, 0.60, 0.25));
    hide Share, Passes, Sum, NeighborsByHop, AllSignals, DirectRisk, Attributed;
  }

  lemma SharesArePassed(g: Graph, asOf: Option<Time>, floor: real, share: real)
    ensures forall v :: Share(g, asOf, floor, share)(v) == Passes(g, asOf, floor, share)(v)
  {
    hide PartOf, Portion;
    forall v ensures Share(g, asOf, floor, share)(v) == Passes(g, asOf, floor, share)(v) {
      if v in g.nodes {
        PartIs(g.nodes[v].risk, share);
      }
    }
  }

  lemma PartIs(risk: real, share: real)
    ensures PartOf(risk, share) == Portion(risk, share)
  {
  }
}

/** One address at two merchants where three of five payments failed. */
module FailingAddress {
  import opened Options
  import opened Numeric
  import opened GraphModel
  import opened SetSums
  import opened Traversal
  import opened CrossMerchantRisk
  import opened DirectRules

  const Address := EntityId("ip_a")
  const Shop := EntityId("merch_a")
  const Store := EntityId("merch_bb")
  const ToShop := EdgeId("a")
  const ToStore := EdgeId("bb")

  const Scene := Graph(
    map[Address := NodeVal(Address, Ip, 0, 0, 0.0, 1), Shop := NodeVal(Shop, Merchant, 0, 0, 0.0, 1),
        Store := NodeVal(Store, Merchant, 0, 0, 0.0, 1)],
    map[ToShop := EdgeVal(ToShop, Address, Shop, 0, 0, 1, 1, 2), ToStore := EdgeVal(ToStore, Address, Store, 0, 0, 1, 1, 1)],
    map[Address := [ToShop, ToStore]],
    map[Shop := [ToShop], Store := [ToStore]])

  lemma AllDiffer()
    ensures Address != Shop && Address != Store && Shop != Store && ToShop != ToStore
  {
    assert |Address.text| == 4 && |Shop.text| == 7 && |Store.text| == 8 && |ToShop.text| == 1 && |ToStore.text| == 2;
  }

  lemma NodesHeld()
    ensures Scene.nodes.Keys == {Address, Shop, Store}
    ensures Scene.nodes[Address] == NodeVal(Address, Ip, 0, 0, 0.0, 1)
    ensures Scene.nodes[Shop] == NodeVal(Shop, Merchant, 0, 0, 0.0, 1)
    ensures Scene.nodes[Store] == NodeVal(Store, Merchant, 0, 0, 0.0, 1)
  {
    AllDiffer();
  }

  lemma EdgesHeld()
    ensures Scene.edges.Keys == {ToShop, ToStore}
    ensures Scene.edges[ToShop] == EdgeVal(ToShop, Address, Shop, 0, 0, 1, 1, 2)
    ensures Scene.edges[ToStore] == EdgeVal(ToStore, Address, Store, 0, 0, 1, 1, 1)
    ensures Listed(Scene.outgoing, Address) == [ToShop, ToStore] && Listed(Scene.incoming, Address) == []
  {
    AllDiffer();
  }

  lemma TwoEdges(g: Graph, x: EntityId, k: EdgeId, l: EdgeId, y: EntityId, z: EntityId)
    requires Listed(g.outgoing, x) == [k, l] && Listed(g.incoming, x) == [] && k in g.edges && l in g.edges
    requires g.edges[k].source == x && g.edges[k].target == y && g.edges[k].first == 0
    requires g.edges[l].source == x && g.edges[l].target == z && g.edges[l].first == 0
    ensures Incident(g, x, Some(0)) == [k, l] && Neighbors(g, x, Some(0)) == [y, z]
  {
    assert Touching(g, x) == [k, l];
    assert [k, l][..1] == [k] && [k][..0] == [];
    assert VisibleOf(g, [k], Some(0)) == [k];
    assert VisibleOf(g, [k, l], Some(0)) == [k, l];
  }

  lemma TallyOfTwo(f: EdgeId -> int, k: EdgeId, l: EdgeId)
    ensures Tally(f, [k, l]) == f(k) + f(l)
  {
    assert [k, l][..1] == [k] && [k][..0] == [];
    assert Tally(f, [k]) == Tally(f, [k][..0]) + f(k) == f(k);
  }

  lemma SeenOfTwo(g: Graph, y: EntityId, z: EntityId, kind: EntityKind)
    requires y in g.nodes && z in g.nodes && y != z && g.nodes[y].kind == g.nodes[z].kind == Merchant
    requires g.nodes[y].first == g.nodes[z].first == 0
    ensures |SeenIn(g, [y, z], Some(0), kind)| == if kind == Merchant then 2 else 0
  {
    assert SeenIn(g, [y, z], Some(0), kind) == if kind == Merchant then {y, z} else {};
  }

  lemma CountedBy(g: Graph, k: EdgeId)
    requires k in g.edges
    ensures SuccessesIn(g)(k) == g.edges[k].successes && FailuresIn(g)(k) == g.edges[k].failures
  {
  }

  lemma SeenBy(g: Graph, x: EntityId, asOf: Option<Time>, kind: EntityKind)
    ensures Seen(g, x, asOf, kind) == SeenIn(g, Neighbors(g, x, asOf), asOf, kind)
  {
  }

  lemma Counts()
    ensures var d := ReadingOf(Scene, Address, Some(0));
      && Address in Scene.nodes
      && d.kind == Ip && d.prior == Nothing && d.merchants == 2 && d.accounts == 0 && d.successes == 2 && d.failures == 3
      && d.clusterNodes <= 3 && d.propagated == 0
  {
    hide *;
    AllDiffer();
    NodesHeld();
    EdgesHeld();
    TwoEdges(Scene, Address, ToShop, ToStore, Shop, Store);
    SeenBy(Scene, Address, Some(0), Merchant);
    SeenBy(Scene, Address, Some(0), Account);
    SeenOfTwo(Scene, Shop, Store, Merchant);
    SeenOfTwo(Scene, Shop, Store, Account);
    TallyOfTwo(SuccessesIn(Scene), ToShop, ToStore);
    TallyOfTwo(FailuresIn(Scene), ToShop, ToStore);
    CountedBy(Scene, ToShop);
    CountedBy(Scene, ToStore);
    CountsRead(Scene, Address, Some(0));
    AtMostThree(Scene, ClusterAround(Scene, Address, Some(0), 2, 200).visited);
    NothingPropagated(Scene, Address, Some(0));
    NoPrior(Scene.nodes[Address], Some(0));
  }

  lemma NoPrior(n: NodeVal, asOf: Option<Time>)
    requires n.risk == 0.0
    ensures PriorRule(n, asOf) == Nothing
  {
  }

  lemma AtMostThree(g: Graph, xs: set<EntityId>)
    requires |g.nodes.Keys| <= 3
    ensures |set v | v in xs && v in g.nodes| <= 3
  {
    SubsetSize((set v | v in xs && v in g.nodes), g.nodes.Keys);
  }

  lemma NothingPropagated(g: Graph, x: EntityId, asOf: Option<Time>)
    requires x in g.nodes && forall v | v in g.nodes :: g.nodes[v].risk == 0.0
    ensures ReadingOf(g, x, asOf).propagated == 0
  {
    var hops := NeighborsByHop(g, x, asOf, 2, MAX_NODES);
    hide ClusterAround, Seen, Tally, PriorRule, NeighborsByHop, Sum, PartOf;
    SumZero(hops.one, OneHopShare(g, asOf));
    SumZero(hops.two, TwoHopShare(g, asOf));
  }

  lemma DirectPointsOf(d: Reading, sigma: real -> real)
    requires sigma(-2.0) == 0.12 && sigma(0.5) == 0.62
    requires d.kind == Ip && d.prior == Nothing && d.merchants == 2 && d.accounts == 0 && d.successes == 2 && d.failures == 3
    requires d.clusterNodes <= 3
    ensures DirectPoints(d, sigma) == 2292
  {
    var rate := FailureRate(d.successes, d.failures);
    assert rate == 0.6;
    assert (d.merchants + d.accounts - 4) as real == -2.0;
    assert Grown(0.12, 0.5, 0.6) == 0.096;
    RoundOfInteger(432);
    assert 0.096 * 0.45 * 10000.0 == 432 as real;
    RoundOfInteger(1860);
    assert 5.0 * (rate - 0.5) == 0.5 && 0.62 * 0.30 * 10000.0 == 1860 as real;
    hide FailureRate, Grown, RoundHalfEven;
  }

  /** With a curve that is 0.12 at -2 and 0.62 at 0.5, the address rule adds 0.0432 and the failure
      rule 0.1860. */
  lemma AddressScore(sigma: real -> real)
    requires sigma(-2.0) == 0.12 && sigma(0.5) == 0.62
    ensures AssessedScore(Scene, Address, Some(0), sigma) == 2292
  {
    hide *;
    Counts();
    NodesHeld();
    DirectPointsOf(ReadingOf(Scene, Address, Some(0)), sigma);
    ScoreOfReading(Scene, Address, Some(0), sigma);
    KnownAtCut(Scene, Address);
    CapIsFar(2292);
  }

  lemma KnownAtCut(g: Graph, x: EntityId)
    requires x in g.nodes && g.nodes[x].first == 0
    ensures NodeAsOf(g, x, Some(0)).Some?
  {
  }

  lemma CapIsFar(points: int)
    requires points < 10000
    ensures Capped(points) == points
  {
  }
}
