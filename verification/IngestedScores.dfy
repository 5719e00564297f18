/** What ingestion alone amounts to: a graph without base scores and outcomes scores nothing. */
module IngestedScores {
  import opened Options
  import opened GraphModel
  import opened SetSums
  import opened EntityIds
  import opened Traversal
  import opened EventUpdates
  import opened IngestionOrder
  import opened CrossMerchantRisk

  predicate OfKind(x: EntityId, kind: EntityKind) { Prefix(kind) <= x.text }

  predicate BareNode(n: NodeVal) { n.risk == 0.0 && OfKind(n.id, n.kind) }

  predicate BareEdge(v: EdgeVal) {
    v.successes == 0 && v.failures == 0 && (OfKind(v.source, Transaction) || OfKind(v.target, Transaction))
  }

  /** No outcome, every edge has a transaction at one end, and ids carry their kinds. */
  ghost predicate WithoutOutcomes(g: Graph) {
    && (forall x | x in g.nodes :: g.nodes[x].id == x && OfKind(x, g.nodes[x].kind))
    && (forall k | k in g.edges :: BareEdge(g.edges[k]))
  }

  /** And no base score either. */
  ghost predicate Bare(g: Graph) {
    WithoutOutcomes(g) && forall x | x in g.nodes :: g.nodes[x].risk == 0.0
  }

  predicate BareUpdate(u: Update) {
    match u
    case NodeUpdate(n) => BareNode(n)
    case EdgeUpdate(v) => BareEdge(v)
  }

  ghost predicate BareUpdates(us: seq<Update>) { forall i | 0 <= i < |us| :: BareUpdate(us[i]) }

  lemma BlockIsBare(e: Event, k: EntityKind)
    ensures BareUpdates(Block(e, k))
  {
    hide MakeEntityId, Prefix;
    if NodeFor(e, k).Some? { IdCarriesPrefix(k, RawFor(e, k).value); }
    IdCarriesPrefix(Transaction, e.transactionId);
  }

  lemma {:induction false} BlocksAreBare(e: Event, n: nat)
    ensures BareUpdates(Blocks(e, n))
  {
    hide Block, BareUpdate;
    if n == 0 {
    } else {
      BlocksAreBare(e, n - 1);
      BlockIsBare(e, KindAt(n - 1));
    }
  }

  lemma {:induction false} RunKeepsBare(g: Graph, us: seq<Update>)
    requires BareUpdates(us)
    ensures WithoutOutcomes(g) ==> WithoutOutcomes(ApplyAll(g, us))
    ensures Bare(g) ==> Bare(ApplyAll(g, us))
  {
    if us == [] {
    } else {
      RunKeepsBare(g, us[..|us| - 1]);
      UpdateKeepsBare(ApplyAll(g, us[..|us| - 1]), us[|us| - 1]);
    }
  }

  lemma UpdateKeepsBare(g: Graph, u: Update)
    requires BareUpdate(u)
    ensures WithoutOutcomes(g) ==> WithoutOutcomes(Apply(g, u))
    ensures Bare(g) ==> Bare(Apply(g, u))
  {
    hide OfKind;
  }

  lemma {:induction false} DeliveriesKeepBare(s: Store, es: seq<Event>)
    requires Coherent(s.graph)
    ensures Coherent(Continued(s, es).graph)
    ensures WithoutOutcomes(s.graph) ==> WithoutOutcomes(Continued(s, es).graph)
    ensures Bare(s.graph) ==> Bare(Continued(s, es).graph)
  {
    hide Coherent, Bare, WithoutOutcomes, UpdatesOf, ApplyAll;
    if es == [] {
    } else {
      var before, e := Continued(s, es[..|es| - 1]), es[|es| - 1];
      DeliveriesKeepBare(s, es[..|es| - 1]);
      if e.eventId !in before.byId {
        RunKeepsCoherent(before.graph, UpdatesOf(e));
        assert BareUpdates(UpdatesOf(e)) by { UpdatesBare(e); }
        RunKeepsBare(before.graph, UpdatesOf(e));
      }
    }
  }

  lemma UpdatesBare(e: Event)
    ensures BareUpdates(UpdatesOf(e))
  {
    BlocksAreBare(e, 6);
  }

  // ----- what such a graph scores

  /** Around an entity that is no transaction there are only transactions. */
  lemma OnlyTransactionsAround(g: Graph, x: EntityId, asOf: Option<Time>, kind: EntityKind)
    requires Coherent(g) && WithoutOutcomes(g) && x in g.nodes && g.nodes[x].kind != Transaction && kind != Transaction
    ensures Seen(g, x, asOf, kind) == {}
  {
    forall v | v in Neighbors(g, x, asOf) && NodeAsOf(g, v, asOf).Some?
      ensures NodeAsOf(g, v, asOf).value.kind == Transaction
    {
      NeighborsAreLinked(g, x, v, asOf);
      hide Prefix, Coherent, Neighbors;
      var k :| k in g.edges && VisibleAt(g.edges[k], asOf) && Joins(g.edges[k], x, v);
      assert BareEdge(g.edges[k]);
      if OfKind(x, Transaction) {
        PrefixesDiffer(Transaction, g.nodes[x].kind, x.text);
      }
      assert OfKind(v, Transaction);
      PrefixesDiffer(Transaction, g.nodes[v].kind, v.text);
    }
  }

  lemma NothingPropagates(g: Graph, x: EntityId, asOf: Option<Time>)
    requires Bare(g)
    ensures PropagatedRisk(g, x, asOf) == 0
  {
    hide NeighborsByHop, OfKind;
    var hops := NeighborsByHop(g, x, asOf, 2, MAX_NODES);
    forall v ensures OneHopShare(g, asOf)(v) == 0 && TwoHopShare(g, asOf)(v) == 0 {
    }
    SumZero(hops.one, OneHopShare(g, asOf));
    SumZero(hops.two, TwoHopShare(g, asOf));
  }

  lemma NoOutcomes(g: Graph, x: EntityId, asOf: Option<Time>, c: Cluster)
    requires WithoutOutcomes(g)
    ensures Tally(SuccessesIn(g), Incident(g, x, asOf)) == 0 && Tally(FailuresIn(g), Incident(g, x, asOf)) == 0
    ensures Sum(c.edges, SuccessesIn(g)) == 0 && Sum(c.edges, FailuresIn(g)) == 0
  {
    hide OfKind, Incident;
    forall k ensures SuccessesIn(g)(k) == 0 && FailuresIn(g)(k) == 0 {
    }
    TallyZero(SuccessesIn(g), Incident(g, x, asOf));
    TallyZero(FailuresIn(g), Incident(g, x, asOf));
    SumZero(c.edges, SuccessesIn(g));
    SumZero(c.edges, FailuresIn(g));
  }

  lemma NoPoints(r: Reading, sigma: real -> real)
    requires r.prior.Nothing? && r.successes == r.failures == r.clusterSuccesses == r.clusterFailures == 0
    requires r.kind != Transaction ==> r.merchants == r.accounts == r.devices == 0
    ensures DirectPoints(r, sigma) == 0
  {
  }

  lemma ReadingWithoutOutcomes(g: Graph, x: EntityId, asOf: Option<Time>)
    requires Coherent(g) && WithoutOutcomes(g) && x in g.nodes && g.nodes[x].risk <= 0.0
    ensures var r := ReadingOf(g, x, asOf);
      && r.prior.Nothing? && r.successes == r.failures == r.clusterSuccesses == r.clusterFailures == 0
      && (r.kind != Transaction ==> r.merchants == r.accounts == r.devices == 0)
      && r.propagated == PropagatedRisk(g, x, asOf)
  {
    if g.nodes[x].kind != Transaction {
      OnlyTransactionsAround(g, x, asOf, Merchant);
      OnlyTransactionsAround(g, x, asOf, Account);
      OnlyTransactionsAround(g, x, asOf, Device);
    }
    NoOutcomes(g, x, asOf, ClusterAround(g, x, asOf, 2, MAX_NODES));
    hide Coherent, Seen, Tally, Sum, ClusterAround, KnownIn, PropagatedRisk, OfKind, WithoutOutcomes;
  }

  /** Without outcomes and a base score of its own an entity scores what is propagated to it. */
  lemma OnlyPropagation(g: Graph, x: EntityId, asOf: Option<Time>, sigma: real -> real)
    requires Coherent(g) && WithoutOutcomes(g)
    requires NodeAsOf(g, x, asOf).Some? && g.nodes[x].risk <= 0.0
    ensures AssessedScore(g, x, asOf, sigma) == Capped(PropagatedRisk(g, x, asOf))
  {
    assert x in g.nodes;
    hide *;
    ReadingWithoutOutcomes(g, x, asOf);
    ScoreOfReading(g, x, asOf, sigma);
    NoPoints(ReadingOf(g, x, asOf), sigma);
  }

  lemma BareScoresNothing(g: Graph, x: EntityId, asOf: Option<Time>, sigma: real -> real)
    requires Coherent(g) && Bare(g)
    ensures AssessedScore(g, x, asOf, sigma) == 0
  {
    hide Coherent, WithoutOutcomes, DirectPoints, ReadingOf, PropagatedRisk;
    if NodeAsOf(g, x, asOf).Some? {
      OnlyPropagation(g, x, asOf, sigma);
      NothingPropagates(g, x, asOf);
    }
  }

  /** Ingestion alone scores nothing: after any deliveries into the empty store, every entity's
      score is 0 at every moment. Scores come from what other writers put into the graph. */
  lemma IngestionScoresNothing(es: seq<Event>, x: EntityId, asOf: Option<Time>, sigma: real -> real)
    ensures AssessedScore(Delivered(es).graph, x, asOf, sigma) == 0
  {
    DeliveriesKeepBare(FRESH_STORE, es);
    hide AssessedScore, Coherent, Bare, Continued;
    BareScoresNothing(Delivered(es).graph, x, asOf, sigma);
  }
}
