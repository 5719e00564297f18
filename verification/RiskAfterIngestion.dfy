/** What events ingested after the cut can change about the risk seen at the cut. */
module RiskAfterIngestion {
  import opened Options
  import opened GraphModel
  import opened GraphLedger
  import opened SetSums
  import opened Traversal
  import opened TemporalCut
  import opened EventUpdates
  import opened IngestionOrder
  import opened CrossMerchantRisk
  import opened RiskAtCut

  function UpdatesOfAll(es: seq<Event>): seq<Update> {
    if es == [] then [] else UpdatesOfAll(es[..|es| - 1]) + UpdatesOf(es[|es| - 1])
  }

  /** Late updates without a base score or an outcome. */
  ghost predicate Plain(us: seq<Update>, cut: Time) {
    forall i | 0 <= i < |us| :: PlainUpdate(us[i], cut)
  }

  predicate PlainUpdate(u: Update, cut: Time) {
    match u
    case NodeUpdate(n) => n.first > cut && n.last > cut && n.risk == 0.0
    case EdgeUpdate(e) => e.first > cut && e.successes == 0 && e.failures == 0
  }

  lemma BlockIsPlain(e: Event, k: EntityKind, cut: Time)
    requires e.timestamp > cut
    ensures Plain(Block(e, k), cut)
  {
  }

  lemma {:induction false} BlocksArePlain(e: Event, n: nat, cut: Time)
    requires e.timestamp > cut
    ensures Plain(Blocks(e, n), cut)
  {
    hide Block;
    if n == 0 {
    } else {
      BlocksArePlain(e, n - 1, cut);
      BlockIsPlain(e, KindAt(n - 1), cut);
    }
  }

  lemma {:induction false} AllPlain(es: seq<Event>, cut: Time)
    requires forall i | 0 <= i < |es| :: es[i].timestamp > cut
    ensures Plain(UpdatesOfAll(es), cut)
  {
    hide UpdatesOf, PlainUpdate;
    if es == [] {
    } else {
      AllPlain(es[..|es| - 1], cut);
      BlocksArePlain(es[|es| - 1], 6, cut);
      assert Plain(UpdatesOf(es[|es| - 1]), cut) by { UpdatesAreBlocks(es[|es| - 1]); }
    }
  }

  lemma UpdatesAreBlocks(e: Event)
    ensures UpdatesOf(e) == Blocks(e, 6)
  {
  }

  lemma {:induction false} AcceptedAreDelivered(s: Store, es: seq<Event>)
    ensures forall e | e in Accepted(s, es) :: e in es
  {
    if es == [] {
    } else {
      AcceptedAreDelivered(s, es[..|es| - 1]);
    }
  }

  lemma {:induction false} ContinuedGraph(s: Store, es: seq<Event>)
    ensures Continued(s, es).graph == ApplyAll(s.graph, UpdatesOfAll(Accepted(s, es)))
  {
    hide UpdatesOf, ApplyAll;
    if es == [] {
      NoUpdates(s.graph);
    } else {
      var n := |es| - 1;
      ContinuedGraph(s, es[..n]);
      var before := Accepted(s, es[..n]);
      if es[n].eventId !in Continued(s, es[..n]).byId {
        assert (before + [es[n]])[..|before|] == before;
        ApplyAppend(s.graph, UpdatesOfAll(before), UpdatesOf(es[n]));
      }
    }
  }

  lemma NoUpdates(g: Graph)
    ensures ApplyAll(g, []) == g
  {
  }

  lemma LatePlain(s: Store, es: seq<Event>, cut: Time)
    requires forall i | 0 <= i < |es| :: es[i].timestamp > cut
    ensures Plain(UpdatesOfAll(Accepted(s, es)), cut)
  {
    AcceptedAreDelivered(s, es);
    var accepted := Accepted(s, es);
    forall i | 0 <= i < |accepted| ensures accepted[i].timestamp > cut {
      assert accepted[i] in es;
    }
    AllPlain(accepted, cut);
  }

  lemma PlainIsLateAndRiskFree(us: seq<Update>, cut: Time)
    requires Plain(us, cut)
    ensures AllAfter(us, cut) && RiskFree(us)
  {
  }

  /** Delivering any events dated after the cut, new or repeated, leaves the risk propagated
      to a known entity as of the cut exactly as it was. */
  lemma LaterEventsKeepRisk(s: Store, es: seq<Event>, cut: Time, x: EntityId)
    requires forall i | 0 <= i < |es| :: es[i].timestamp > cut
    requires x in s.graph.nodes
    ensures PropagatedRisk(Continued(s, es).graph, x, Some(cut)) == PropagatedRisk(s.graph, x, Some(cut))
  {
    hide PropagatedRisk, AllAfter, RiskFree, Plain, Accepted, Continued, UpdatesOfAll, ApplyAll;
    var us := UpdatesOfAll(Accepted(s, es));
    ContinuedGraph(s, es);
    LatePlain(s, es, cut);
    PlainIsLateAndRiskFree(us, cut);
    RiskFreeRunsKeepPropagation(s.graph, us, cut, x);
  }

  // ----- the whole assessment

  lemma {:induction false} PlainEdges(us: seq<Update>, cut: Time, k: EdgeId)
    requires Plain(us, cut)
    ensures LateSuccesses(us)(k) == 0 && LateFailures(us)(k) == 0
  {
    hide PlainUpdate;
    if us == [] {
      assert Map(EdgeSuccesses, []) == [] && Map(EdgeFailures, []) == [];
    } else {
      var before, u := us[..|us| - 1], us[|us| - 1];
      PlainEdges(before, cut, k);
      if u.EdgeUpdate? && u.edge.id == k {
        var es := EdgeUpdatesOf(before, k);
        assert u.edge.successes == 0 && u.edge.failures == 0 by { PlainOutcomes(u, cut); }
        MapAppend(EdgeSuccesses, es, u.edge);
        TotalAppend(Map(EdgeSuccesses, es), u.edge.successes);
        MapAppend(EdgeFailures, es, u.edge);
        TotalAppend(Map(EdgeFailures, es), u.edge.failures);
      }
    }
  }

  lemma PlainOutcomes(u: Update, cut: Time)
    requires PlainUpdate(u, cut) && u.EdgeUpdate?
    ensures u.edge.successes == 0 && u.edge.failures == 0
  {
  }

  lemma {:induction false} PlainSightings(us: seq<Update>, cut: Time, v: EntityId)
    requires Plain(us, cut)
    ensures Proper(NodeUpdatesOf(us, v), cut)
  {
    if us == [] {
    } else {
      PlainSightings(us[..|us| - 1], cut, v);
    }
  }

  /** The updates of some events touch a node exactly when one of the events names it. */
  lemma {:induction false} SightedExactly(es: seq<Event>, v: EntityId)
    ensures NodeUpdatesOf(UpdatesOfAll(es), v) == [] <==> forall e | e in es :: !NamesNode(e, v)
  {
    hide UpdatesOf, NamesNode, NodeUpdatesOf;
    if es == [] {
      NothingSighted(v);
    } else {
      var n := |es| - 1;
      SightedExactly(es[..n], v);
      assert es == es[..n] + [es[n]];
      NodeUpdatesAppend(UpdatesOfAll(es[..n]), UpdatesOf(es[n]), v);
      SightedByOne(es[n], v);
    }
  }

  lemma NothingSighted(v: EntityId)
    ensures NodeUpdatesOf([], v) == []
  {
  }

  lemma SightedByOne(e: Event, v: EntityId)
    ensures NodeUpdatesOf(UpdatesOf(e), v) == [] <==> !NamesNode(e, v)
  {
    hide UpdatesOf, NodeUpdatesOf;
    if k :| SeesNode(e, k, v) {
      EventTouchesNode(e, k, v);
    } else {
      EventTouchesNode(e, Merchant, v);
    }
  }

  /** Deliveries after the cut leave everything the assessment as of the cut reads as it was
      exactly when the entity had no prior investigation that counted or is not named again, and
      no accepted event is the first to add an id the cluster already reached. */
  lemma LaterEventsKeepReadingExactly(s: Store, es: seq<Event>, cut: Time, x: EntityId)
    requires forall i | 0 <= i < |es| :: es[i].timestamp > cut
    requires x in s.graph.nodes
    ensures x in Continued(s, es).graph.nodes
    ensures ReadingOf(Continued(s, es).graph, x, Some(cut)) == ReadingOf(s.graph, x, Some(cut)) <==>
            && (PriorRule(s.graph.nodes[x], Some(cut)).Nothing? || forall e | e in Accepted(s, es) :: !NamesNode(e, x))
            && (forall e, v | e in Accepted(s, es) && NamesNode(e, v) ::
                  v in ClusterAround(s.graph, x, Some(cut), 2, MAX_NODES).visited ==> v in s.graph.nodes)
  {
    var us := UpdatesOfAll(Accepted(s, es));
    hide *;
    ContinuedGraph(s, es);
    LatePlain(s, es, cut);
    PlainIsLateAndRiskFree(us, cut);
    ReadingKeptExactly(s.graph, us, cut, x);
    UntouchedByPlain(s.graph, Accepted(s, es), cut, x);
  }

  lemma UntouchedByPlain(g: Graph, es: seq<Event>, cut: Time, x: EntityId)
    requires x in g.nodes && Plain(UpdatesOfAll(es), cut)
    ensures Untouched(g, UpdatesOfAll(es), cut, x) <==>
            && (PriorRule(g.nodes[x], Some(cut)).Nothing? || forall e | e in es :: !NamesNode(e, x))
            && (forall e, v | e in es && NamesNode(e, v) ::
                  v in ClusterAround(g, x, Some(cut), 2, MAX_NODES).visited ==> v in g.nodes)
  {
    var us := UpdatesOfAll(es);
    var ks, c := Incident(g, x, Some(cut)), ClusterAround(g, x, Some(cut), 2, MAX_NODES);
    hide Plain, UpdatesOfAll, NodeUpdatesOf, NamesNode, PriorRule, Merged, Incident, ClusterAround, Tally, Sum,
      NeighborsKept, LateSuccesses, LateFailures, AllAfter, RiskFree, PropagatedRisk;
    PlainIsLateAndRiskFree(us, cut);
    RiskFreeRunsKeepPropagation(g, us, cut, x);
    PlainSightings(us, cut, x);
    PriorKeptExactly(g.nodes[x], NodeUpdatesOf(us, x), cut);
    forall v ensures NodeUpdatesOf(us, v) == [] <==> forall e | e in es :: !NamesNode(e, v) {
      SightedExactly(es, v);
    }
    forall k ensures LateSuccesses(us)(k) == 0 && LateFailures(us)(k) == 0 { PlainEdges(us, cut, k); }
    TallyZero(LateSuccesses(us), ks);
    TallyZero(LateFailures(us), ks);
    SumZero(c.edges, LateSuccesses(us));
    SumZero(c.edges, LateFailures(us));
  }
}
