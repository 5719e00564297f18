/** Exactly-once ingestion: the final graph depends only on the set of distinct events. */
module IngestionOrder {
  import opened Options
  import opened PyStrings
  import opened GraphModel
  import opened GraphLedger
  import opened EventUpdates

  /** The event store and the graph it feeds. */
  datatype Store = Store(byId: map<string, Event>, byTransaction: map<string, seq<Event>>, graph: Graph)

  const FRESH_STORE := Store(map[], map[], EMPTY)

  /** `save`: a known event id is refused and changes nothing. */
  function Saved(s: Store, e: Event): Store {
    if e.eventId in s.byId then s
    else
      var list := if e.transactionId in s.byTransaction then s.byTransaction[e.transactionId] else [];
      s.(byId := s.byId[e.eventId := e], byTransaction := s.byTransaction[e.transactionId := list + [e]])
  }

  function Processed(s: Store, e: Event): Store {
    if e.eventId in s.byId then s else Saved(s, e).(graph := ApplyAll(s.graph, UpdatesOf(e)))
  }

  /** Any deliveries, into any store: its graph may hold what other writers put there. */
  function Continued(s: Store, es: seq<Event>): Store {
    if es == [] then s else Processed(Continued(s, es[..|es| - 1]), es[|es| - 1])
  }

  function Delivered(es: seq<Event>): Store { Continued(FRESH_STORE, es) }

  /** The deliveries the store accepts: those with an id it does not know yet. */
  function Accepted(s: Store, es: seq<Event>): seq<Event> {
    if es == [] then []
    else
      var before, e := Accepted(s, es[..|es| - 1]), es[|es| - 1];
      if e.eventId in Continued(s, es[..|es| - 1]).byId then before else before + [e]
  }

  function EventSet(es: seq<Event>): set<Event> { set e | e in es }

  /** The events a store does not refuse. */
  ghost function NewTo(s: Store, events: set<Event>): set<Event> { set e | e in events && e.eventId !in s.byId }

  /** Equal event ids mean equal events. */
  ghost predicate IdsConsistent(events: set<Event>) {
    forall e, f | e in events && f in events && e.eventId == f.eventId :: e == f
  }

  /** Equal ids of edges not yet known mean equal ends: no token smuggles a relationship name
      into an id. (A known edge keeps its ends, whatever the events say.) */
  ghost predicate FaithfulBeyond(known: set<EdgeId>, events: set<Event>) {
    forall e, f, k, l, d | e in events && f in events && SeesEdge(e, k, d) && SeesEdge(f, l, d) && d !in known ::
      EdgeFor(e, k).value.source == EdgeFor(f, l).value.source
      && EdgeFor(e, k).value.target == EdgeFor(f, l).value.target
  }

  ghost predicate EdgeIdsFaithful(events: set<Event>) { FaithfulBeyond({}, events) }

  // ----- the summary of a set of events, on top of a graph

  ghost predicate NamesNode(e: Event, x: EntityId) { exists k :: SeesNode(e, k, x) }

  ghost predicate NamesEdge(e: Event, d: EdgeId) { exists k :: SeesEdge(e, k, d) }

  ghost function NodeEvents(events: set<Event>, x: EntityId): set<Event> {
    set e | e in events && NamesNode(e, x)
  }

  ghost function EdgeEvents(events: set<Event>, d: EdgeId): set<Event> {
    set e | e in events && NamesEdge(e, d)
  }

  /** `first` and `last` are the least and greatest timestamps in `events`. */
  ghost predicate Envelope(first: Time, last: Time, events: set<Event>) {
    && (forall e | e in events :: first <= e.timestamp <= last)
    && (exists e :: e in events && e.timestamp == first)
    && (exists e :: e in events && e.timestamp == last)
  }

  ghost predicate NodeSummary(n: NodeVal, x: EntityId, events: set<Event>) {
    && n.id == x && n.risk == 0.0
    && Envelope(n.first, n.last, NodeEvents(events, x))
    && n.count == |NodeEvents(events, x)|
    && (forall e, k | e in events && SeesNode(e, k, x) :: n.kind == k)
  }

  ghost predicate EdgeSummary(v: EdgeVal, d: EdgeId, events: set<Event>) {
    && v.id == d && v.successes == 0 && v.failures == 0
    && Envelope(v.first, v.last, EdgeEvents(events, d))
    && v.count == |EdgeEvents(events, d)|
    && (forall e, k | e in events && SeesEdge(e, k, d) ::
          v.source == EdgeFor(e, k).value.source && v.target == EdgeFor(e, k).value.target)
  }

  /** `first` and `last` are those of `first0`, `last0` and all timestamps in `events`. */
  ghost predicate Extends(first0: Time, last0: Time, first: Time, last: Time, events: set<Event>) {
    && first <= first0 && last0 <= last
    && (forall e | e in events :: first <= e.timestamp <= last)
    && (first == first0 || exists e :: e in events && e.timestamp == first)
    && (last == last0 || exists e :: e in events && e.timestamp == last)
  }

  /** A node that was there, after the events: it keeps its kind and its score. */
  ghost predicate NodeGrown(b: NodeVal, n: NodeVal, events: set<Event>) {
    && n.id == b.id && n.kind == b.kind
    && n.risk == (if events != {} && b.risk < 0.0 then 0.0 else b.risk)
    && Extends(b.first, b.last, n.first, n.last, events)
    && n.count == b.count + |events|
  }

  /** An edge that was there: it keeps its ends and its outcomes. */
  ghost predicate EdgeGrown(b: EdgeVal, v: EdgeVal, events: set<Event>) {
    && v.id == b.id && v.source == b.source && v.target == b.target
    && v.successes == b.successes && v.failures == b.failures
    && Extends(b.first, b.last, v.first, v.last, events)
    && v.count == b.count + |events|
  }

  ghost predicate NodeFrom(base: Graph, n: NodeVal, x: EntityId, events: set<Event>) {
    if x in base.nodes then NodeGrown(base.nodes[x], n, NodeEvents(events, x)) else NodeSummary(n, x, events)
  }

  ghost predicate EdgeFrom(base: Graph, v: EdgeVal, d: EdgeId, events: set<Event>) {
    if d in base.edges then EdgeGrown(base.edges[d], v, EdgeEvents(events, d)) else EdgeSummary(v, d, events)
  }

  ghost predicate NodeSummarised(base: Graph, g: Graph, events: set<Event>, x: EntityId) {
    && (x in g.nodes <==> x in base.nodes || NodeEvents(events, x) != {})
    && (x in g.nodes ==> NodeFrom(base, g.nodes[x], x, events))
  }

  ghost predicate EdgeSummarised(base: Graph, g: Graph, events: set<Event>, d: EdgeId) {
    && (d in g.edges <==> d in base.edges || EdgeEvents(events, d) != {})
    && (d in g.edges ==> EdgeFrom(base, g.edges[d], d, events))
  }

  /** `g` is `base` with the events on top, each counted once. */
  ghost predicate Summarises(base: Graph, g: Graph, events: set<Event>) {
    && Coherent(g)
    && (forall x :: NodeSummarised(base, g, events, x))
    && (forall d :: EdgeSummarised(base, g, events, d))
  }

  // ----- one new event

  lemma {:induction false} NodeEffect(g: Graph, us: seq<Update>, x: EntityId)
    ensures var h := ApplyAll(g, us);
      && (NodeUpdatesOf(us, x) == [] ==>
            (x in h.nodes <==> x in g.nodes) && (x in g.nodes ==> h.nodes[x] == g.nodes[x]))
      && (|NodeUpdatesOf(us, x)| == 1 ==>
            x in h.nodes && h.nodes[x] ==
            (if x in g.nodes then MergeNode(g.nodes[x], NodeUpdatesOf(us, x)[0]) else NodeUpdatesOf(us, x)[0]))
  {
    if us == [] {
    } else {
      NodeEffect(g, us[..|us| - 1], x);
    }
  }

  lemma {:induction false} EdgeEffect(g: Graph, us: seq<Update>, d: EdgeId)
    ensures var h := ApplyAll(g, us);
      && (EdgeUpdatesOf(us, d) == [] ==>
            (d in h.edges <==> d in g.edges) && (d in g.edges ==> h.edges[d] == g.edges[d]))
      && (|EdgeUpdatesOf(us, d)| == 1 ==>
            d in h.edges && h.edges[d] ==
            (if d in g.edges then MergeEdge(g.edges[d], EdgeUpdatesOf(us, d)[0]) else EdgeUpdatesOf(us, d)[0]))
  {
    if us == [] {
    } else {
      EdgeEffect(g, us[..|us| - 1], d);
    }
  }

  lemma NodeEventsWith(events: set<Event>, e: Event, x: EntityId)
    ensures NodeEvents(events + {e}, x) ==
            if NamesNode(e, x) then NodeEvents(events, x) + {e} else NodeEvents(events, x)
  {
  }

  lemma EdgeEventsWith(events: set<Event>, e: Event, d: EdgeId)
    ensures EdgeEvents(events + {e}, d) ==
            if NamesEdge(e, d) then EdgeEvents(events, d) + {e} else EdgeEvents(events, d)
  {
  }

  lemma EnvelopeWith(first: Time, last: Time, events: set<Event>, e: Event)
    requires Envelope(first, last, events)
    ensures Envelope(Earlier(first, e.timestamp), Later(last, e.timestamp), events + {e})
  {
    var a :| a in events && a.timestamp == first;
    var b :| b in events && b.timestamp == last;
    assert (if e.timestamp < first then e else a) in events + {e};
    assert (if e.timestamp > last then e else b) in events + {e};
  }

  lemma EnvelopeAlone(e: Event)
    ensures Envelope(e.timestamp, e.timestamp, {e})
  {
    assert e in {e};
  }

  /** The node's new value, after one sighting by a new event. */
  lemma NodeSummaryWith(g: Graph, events: set<Event>, e: Event, k: EntityKind, x: EntityId)
    requires x in g.nodes <==> NodeEvents(events, x) != {}
    requires x in g.nodes ==> NodeSummary(g.nodes[x], x, events)
    requires e !in events && SeesNode(e, k, x)
    ensures NodeSummary(
      if x in g.nodes then MergeNode(g.nodes[x], NodeFor(e, k).value) else NodeFor(e, k).value, x, events + {e})
  {
    var n := NodeFor(e, k).value;
    var m := if x in g.nodes then MergeNode(g.nodes[x], n) else n;
    assert NamesNode(e, x);
    NodeEventsWith(events, e, x);
    if x in g.nodes {
      EnvelopeWith(g.nodes[x].first, g.nodes[x].last, NodeEvents(events, x), e);
      var f :| f in NodeEvents(events, x);
      var l :| SeesNode(f, l, x);
      NodeKindUnique(e, k, f, l);
      assert g.nodes[x].kind == l;
    } else {
      EnvelopeAlone(e);
    }
    forall f, l | f in events + {e} && SeesNode(f, l, x) ensures m.kind == l {
      NodeKindUnique(e, k, f, l);
    }
  }

  lemma EdgeSummaryWith(base: Graph, g: Graph, events: set<Event>, e: Event, k: EntityKind, d: EdgeId)
    requires d in g.edges <==> EdgeEvents(events, d) != {}
    requires d in g.edges ==> EdgeSummary(g.edges[d], d, events)
    requires e !in events && SeesEdge(e, k, d) && d !in base.edges && FaithfulBeyond(base.edges.Keys, events + {e})
    ensures EdgeSummary(
      if d in g.edges then MergeEdge(g.edges[d], EdgeFor(e, k).value) else EdgeFor(e, k).value, d, events + {e})
  {
    var v := EdgeFor(e, k).value;
    var m := if d in g.edges then MergeEdge(g.edges[d], v) else v;
    assert NamesEdge(e, d);
    EdgeEventsWith(events, e, d);
    if d in g.edges {
      EnvelopeWith(g.edges[d].first, g.edges[d].last, EdgeEvents(events, d), e);
      var f :| f in EdgeEvents(events, d);
      var l :| SeesEdge(f, l, d);
      assert g.edges[d].source == EdgeFor(f, l).value.source == v.source;
      assert g.edges[d].target == EdgeFor(f, l).value.target == v.target;
    } else {
      EnvelopeAlone(e);
    }
    forall f, l | f in events + {e} && SeesEdge(f, l, d)
      ensures m.source == EdgeFor(f, l).value.source && m.target == EdgeFor(f, l).value.target
    {
    }
  }

  lemma ExtendsWith(first0: Time, last0: Time, first: Time, last: Time, events: set<Event>, e: Event)
    requires Extends(first0, last0, first, last, events)
    ensures Extends(first0, last0, Earlier(first, e.timestamp), Later(last, e.timestamp), events + {e})
  {
    if e.timestamp < first {
      assert e in events + {e};
    } else if first != first0 {
      var a :| a in events && a.timestamp == first;
      assert a in events + {e};
    }
    if e.timestamp > last {
      assert e in events + {e};
    } else if last != last0 {
      var b :| b in events && b.timestamp == last;
      assert b in events + {e};
    }
  }

  lemma NodeGrownWith(b: NodeVal, m: NodeVal, n: NodeVal, events: set<Event>, e: Event)
    requires NodeGrown(b, m, events) && e !in events
    requires n.first == n.last == e.timestamp && n.count == 1 && n.risk == 0.0
    ensures NodeGrown(b, MergeNode(m, n), events + {e})
  {
    hide Extends;
    ExtendsWith(b.first, b.last, m.first, m.last, events, e);
    assert e in events + {e};
  }

  lemma EdgeGrownWith(b: EdgeVal, m: EdgeVal, v: EdgeVal, events: set<Event>, e: Event)
    requires EdgeGrown(b, m, events) && e !in events
    requires v.first == v.last == e.timestamp && v.count == 1 && v.successes == 0 && v.failures == 0
    ensures EdgeGrown(b, MergeEdge(m, v), events + {e})
  {
    hide Extends;
    ExtendsWith(b.first, b.last, m.first, m.last, events, e);
  }

  lemma SightingValues(e: Event, k: EntityKind)
    ensures NodeFor(e, k).Some? ==>
              var n := NodeFor(e, k).value;
              n.first == n.last == e.timestamp && n.count == 1 && n.risk == 0.0
    ensures EdgeFor(e, k).Some? ==>
              var v := EdgeFor(e, k).value;
              v.first == v.last == e.timestamp && v.count == 1 && v.successes == 0 && v.failures == 0
  {
  }

  lemma NodeAfterEvent(base: Graph, g: Graph, events: set<Event>, e: Event, x: EntityId)
    requires NodeSummarised(base, g, events, x) && e !in events
    ensures NodeSummarised(base, ApplyAll(g, UpdatesOf(e)), events + {e}, x)
  {
    NodeEffect(g, UpdatesOf(e), x);
    NodeEventsWith(events, e, x);
    hide UpdatesOf, ApplyAll, NodeEvents, NodeSummary, NodeGrown, NodeFor, MergeNode;
    if k :| SeesNode(e, k, x) {
      assert NamesNode(e, x);
      EventTouchesNode(e, k, x);
      SightingValues(e, k);
      if x in base.nodes {
        NotAmong(events, e, x);
        NodeGrownWith(base.nodes[x], g.nodes[x], NodeFor(e, k).value, NodeEvents(events, x), e);
      } else {
        NodeSummaryWith(g, events, e, k, x);
      }
    } else {
      EventTouchesNode(e, Merchant, x);
      NotNamed(events, e, x);
    }
  }

  lemma NotAmong(events: set<Event>, e: Event, x: EntityId)
    requires e !in events
    ensures e !in NodeEvents(events, x)
  {
  }

  /** An event that does not name a node leaves its summary alone. */
  lemma NotNamed(events: set<Event>, e: Event, x: EntityId)
    requires forall k :: !SeesNode(e, k, x)
    ensures !NamesNode(e, x)
    ensures forall n :: NodeSummary(n, x, events) ==> NodeSummary(n, x, events + {e})
  {
    NodeEventsWith(events, e, x);
  }

  lemma EdgeAfterEvent(base: Graph, g: Graph, events: set<Event>, e: Event, d: EdgeId)
    requires EdgeSummarised(base, g, events, d) && e !in events && FaithfulBeyond(base.edges.Keys, events + {e})
    ensures EdgeSummarised(base, ApplyAll(g, UpdatesOf(e)), events + {e}, d)
  {
    EdgeEffect(g, UpdatesOf(e), d);
    EdgeEventsWith(events, e, d);
    hide UpdatesOf, ApplyAll, EdgeEvents, EdgeSummary, EdgeGrown, EdgeFor, MergeEdge, FaithfulBeyond;
    if k :| SeesEdge(e, k, d) {
      assert NamesEdge(e, d);
      EventTouchesEdge(e, k, d);
      SightingValues(e, k);
      if d in base.edges {
        EdgeNotAmong(events, e, d);
        EdgeGrownWith(base.edges[d], g.edges[d], EdgeFor(e, k).value, EdgeEvents(events, d), e);
      } else {
        EdgeSummaryWith(base, g, events, e, k, d);
      }
    } else {
      EventTouchesEdge(e, Merchant, d);
      EdgeNotNamed(events, e, d);
    }
  }

  lemma EdgeNotAmong(events: set<Event>, e: Event, d: EdgeId)
    requires e !in events
    ensures e !in EdgeEvents(events, d)
  {
  }

  lemma EdgeNotNamed(events: set<Event>, e: Event, d: EdgeId)
    requires forall k :: !SeesEdge(e, k, d)
    ensures !NamesEdge(e, d)
    ensures forall v :: EdgeSummary(v, d, events) ==> EdgeSummary(v, d, events + {e})
  {
    EdgeEventsWith(events, e, d);
  }

  lemma EventKeepsSummary(base: Graph, g: Graph, events: set<Event>, e: Event)
    requires Summarises(base, g, events) && e !in events && FaithfulBeyond(base.edges.Keys, events + {e})
    ensures Summarises(base, ApplyAll(g, UpdatesOf(e)), events + {e})
  {
    RunKeepsCoherent(g, UpdatesOf(e));
    hide UpdatesOf, ApplyAll, NodeSummarised, EdgeSummarised, FaithfulBeyond, Coherent;
    var h := ApplyAll(g, UpdatesOf(e));
    forall x ensures NodeSummarised(base, h, events + {e}, x) {
      NodeAfterEvent(base, g, events, e, x);
    }
    forall d ensures EdgeSummarised(base, h, events + {e}, d) {
      EdgeAfterEvent(base, g, events, e, d);
    }
  }

  lemma FaithfulSubset(known: set<EdgeId>, a: set<Event>, b: set<Event>)
    requires a <= b && FaithfulBeyond(known, b)
    ensures FaithfulBeyond(known, a)
  {
  }

  lemma EventSetSplit(es: seq<Event>)
    requires es != []
    ensures EventSet(es) == EventSet(es[..|es| - 1]) + {es[|es| - 1]}
  {
    assert es == es[..|es| - 1] + [es[|es| - 1]];
  }

  /** The store holds what it held and exactly the distinct new events, each under its own id. */
  ghost predicate Stores(s0: Store, s: Store, events: set<Event>) {
    && (forall i | i in s0.byId :: i in s.byId && s.byId[i] == s0.byId[i])
    && (forall i | i in s.byId && i !in s0.byId :: s.byId[i] in events && s.byId[i].eventId == i)
    && (forall e | e in events :: e.eventId in s.byId && s.byId[e.eventId] == e)
  }

  /** What one more delivery adds to the new events: itself, unless its id is stored by then. */
  lemma NewStep(s: Store, t: Store, es: seq<Event>)
    requires es != [] && IdsConsistent(NewTo(s, EventSet(es)))
    requires Stores(s, t, NewTo(s, EventSet(es[..|es| - 1])))
    ensures var e, before := es[|es| - 1], NewTo(s, EventSet(es[..|es| - 1]));
      if e.eventId in t.byId then NewTo(s, EventSet(es)) == before
      else NewTo(s, EventSet(es)) == before + {e} && e !in before
  {
    EventSetSplit(es);
    var e, before := es[|es| - 1], NewTo(s, EventSet(es[..|es| - 1]));
    hide EventSet;
    if e.eventId in t.byId && e.eventId !in s.byId {
      var f := t.byId[e.eventId];
      assert f in before && f.eventId == e.eventId;
      assert f in NewTo(s, EventSet(es)) && e in NewTo(s, EventSet(es));
      assert e == f;
    }
  }

  lemma NothingDelivered(s: Store)
    requires Coherent(s.graph)
    ensures Stores(s, Continued(s, []), NewTo(s, EventSet([])))
    ensures Summarises(s.graph, Continued(s, []).graph, NewTo(s, EventSet([])))
  {
    var none := NewTo(s, EventSet([]));
    assert none == {};
    assert forall x :: NodeEvents(none, x) == {};
    assert forall d :: EdgeEvents(none, d) == {};
  }

  /** After any deliveries into any store, the store holds the distinct new events besides its
      old ones, and the graph is the old one with these events on top: first sighting the
      minimum, last the maximum, count increased by the number of new events. */
  lemma {:induction false} ContinuedIsSummarised(s: Store, es: seq<Event>)
    requires Coherent(s.graph) && IdsConsistent(NewTo(s, EventSet(es)))
    requires FaithfulBeyond(s.graph.edges.Keys, NewTo(s, EventSet(es)))
    ensures Stores(s, Continued(s, es), NewTo(s, EventSet(es)))
    ensures Summarises(s.graph, Continued(s, es).graph, NewTo(s, EventSet(es)))
  {
    if es == [] {
      NothingDelivered(s);
    } else {
      var before, e := es[..|es| - 1], es[|es| - 1];
      NewSubset(s, es);
      FaithfulSubset(s.graph.edges.Keys, NewTo(s, EventSet(before)), NewTo(s, EventSet(es)));
      ContinuedIsSummarised(s, before);
      var t := Continued(s, before);
      NewStep(s, t, es);
      hide Summarises, FaithfulBeyond, NewTo, EventSet, UpdatesOf;
      if e.eventId !in t.byId {
        EventKeepsSummary(s.graph, t.graph, NewTo(s, EventSet(before)), e);
        OneMoreStored(s, t, NewTo(s, EventSet(before)), e);
      }
    }
  }

  /** The events of one transaction, in order. */
  function OfTransaction(es: seq<Event>, id: string): seq<Event> {
    if es == [] then []
    else
      var before, e := OfTransaction(es[..|es| - 1], id), es[|es| - 1];
      if e.transactionId == id then before + [e] else before
  }

  function ListOf(s: Store, id: string): seq<Event> { if id in s.byTransaction then s.byTransaction[id] else [] }

  lemma ListAfter(s: Store, e: Event, id: string)
    ensures ListOf(Processed(s, e), id) ==
            if e.eventId !in s.byId && e.transactionId == id then ListOf(s, id) + [e] else ListOf(s, id)
  {
    hide UpdatesOf, ApplyAll;
  }

  lemma OfTransactionNext(es: seq<Event>, e: Event, id: string)
    ensures OfTransaction(es + [e], id) ==
            if e.transactionId == id then OfTransaction(es, id) + [e] else OfTransaction(es, id)
  {
    assert (es + [e])[..|es|] == es;
  }

  /** What the store lists under a transaction: what it listed before, and then the accepted
      events of that transaction in the order they were delivered. */
  lemma {:induction false} TransactionsInOrder(s: Store, es: seq<Event>, id: string)
    ensures ListOf(Continued(s, es), id) == ListOf(s, id) + OfTransaction(Accepted(s, es), id)
  {
    hide ListOf, Processed, OfTransaction;
    if es == [] {
      NothingListed(id);
    } else {
      var n := |es| - 1;
      TransactionsInOrder(s, es[..n], id);
      ListAfter(Continued(s, es[..n]), es[n], id);
      OfTransactionNext(Accepted(s, es[..n]), es[n], id);
    }
  }

  lemma NothingListed(id: string)
    ensures OfTransaction([], id) == []
  {
  }

  lemma NewSubset(s: Store, es: seq<Event>)
    requires es != []
    ensures NewTo(s, EventSet(es[..|es| - 1])) <= NewTo(s, EventSet(es))
    ensures IdsConsistent(NewTo(s, EventSet(es))) ==> IdsConsistent(NewTo(s, EventSet(es[..|es| - 1])))
  {
    EventSetSplit(es);
  }

  lemma OneMoreStored(s: Store, t: Store, events: set<Event>, e: Event)
    requires Stores(s, t, events) && e.eventId !in t.byId
    ensures Stores(s, Processed(t, e), events + {e})
  {
    hide UpdatesOf, ApplyAll;
  }

  lemma AllNew(events: set<Event>)
    ensures NewTo(FRESH_STORE, events) == events
    ensures Coherent(FRESH_STORE.graph) && FRESH_STORE.graph.edges.Keys == {}
  {
  }

  /** From the empty store, in particular: the store holds exactly the distinct events, and each
      node and edge is the summary of the events that name it. */
  lemma DeliveriesAreSummarised(es: seq<Event>)
    requires IdsConsistent(EventSet(es)) && EdgeIdsFaithful(EventSet(es))
    ensures Stores(FRESH_STORE, Delivered(es), EventSet(es))
    ensures Summarises(EMPTY, Delivered(es).graph, EventSet(es))
    ensures forall x | x in Delivered(es).graph.nodes :: NodeSummary(Delivered(es).graph.nodes[x], x, EventSet(es))
    ensures forall d | d in Delivered(es).graph.edges :: EdgeSummary(Delivered(es).graph.edges[d], d, EventSet(es))
  {
    AllNew(EventSet(es));
    ContinuedIsSummarised(FRESH_STORE, es);
    hide NodeSummary, EdgeSummary, NodeGrown, EdgeGrown, Coherent, EventSet, Continued, IdsConsistent, FaithfulBeyond;
    var g := Delivered(es).graph;
    forall x | x in g.nodes ensures NodeSummary(g.nodes[x], x, EventSet(es)) {
      assert NodeSummarised(EMPTY, g, EventSet(es), x);
    }
    forall d | d in g.edges ensures EdgeSummary(g.edges[d], d, EventSet(es)) {
      assert EdgeSummarised(EMPTY, g, EventSet(es), d);
    }
  }

  // ----- a summary leaves no freedom

  lemma EnvelopeUnique(a: Time, b: Time, c: Time, d: Time, events: set<Event>)
    requires Envelope(a, b, events) && Envelope(c, d, events)
    ensures a == c && b == d
  {
  }

  lemma NodeUnique(m: NodeVal, n: NodeVal, x: EntityId, events: set<Event>)
    requires NodeEvents(events, x) != {} && NodeSummary(m, x, events) && NodeSummary(n, x, events)
    ensures m == n
  {
    EnvelopeUnique(m.first, m.last, n.first, n.last, NodeEvents(events, x));
    var e :| e in NodeEvents(events, x);
    var k :| SeesNode(e, k, x);
    assert m.kind == k == n.kind;
  }

  lemma EdgeUnique(v: EdgeVal, w: EdgeVal, d: EdgeId, events: set<Event>)
    requires EdgeEvents(events, d) != {} && EdgeSummary(v, d, events) && EdgeSummary(w, d, events)
    ensures v == w
  {
    EnvelopeUnique(v.first, v.last, w.first, w.last, EdgeEvents(events, d));
    var e :| e in EdgeEvents(events, d);
    var k :| SeesEdge(e, k, d);
    assert v.source == EdgeFor(e, k).value.source == w.source;
    assert v.target == EdgeFor(e, k).value.target == w.target;
  }

  /** The same nodes and edges, and the same adjacency lists up to order. */
  ghost predicate SameGraph(g: Graph, h: Graph) {
    && g.nodes == h.nodes && g.edges == h.edges
    && (forall x :: multiset(Listed(g.outgoing, x)) == multiset(Listed(h.outgoing, x)))
    && (forall x :: multiset(Listed(g.incoming, x)) == multiset(Listed(h.incoming, x)))
  }

  lemma SameIndexes(a: map<EntityId, seq<EdgeId>>, b: map<EntityId, seq<EdgeId>>, ends: map<EdgeId, EntityId>)
    requires Indexes(a, ends) && Indexes(b, ends)
    ensures forall x :: multiset(Listed(a, x)) == multiset(Listed(b, x))
  {
    forall x ensures multiset(Listed(a, x)) == multiset(Listed(b, x)) {
      forall k ensures multiset(Listed(a, x))[k] == multiset(Listed(b, x))[k] {
      }
    }
  }

  lemma SummaryDeterminesNodes(base: Graph, g: Graph, h: Graph, events: set<Event>)
    requires Summarises(base, g, events) && Summarises(base, h, events)
    ensures g.nodes == h.nodes
  {
    hide NodeEvents, EdgeEvents, NodeSummary, NodeGrown, EdgeFrom, Coherent;
    forall x ensures x in g.nodes <==> x in h.nodes {
      assert NodeSummarised(base, g, events, x) && NodeSummarised(base, h, events, x);
    }
    forall x | x in g.nodes ensures g.nodes[x] == h.nodes[x] {
      assert NodeSummarised(base, g, events, x) && NodeSummarised(base, h, events, x);
      if x in base.nodes {
        SameGrownNode(base.nodes[x], g.nodes[x], h.nodes[x], NodeEvents(events, x));
      } else {
        NodeUnique(g.nodes[x], h.nodes[x], x, events);
      }
    }
  }

  lemma SameGrownNode(b: NodeVal, m: NodeVal, n: NodeVal, events: set<Event>)
    requires NodeGrown(b, m, events) && NodeGrown(b, n, events)
    ensures m == n
  {
  }

  lemma SameGrownEdge(b: EdgeVal, v: EdgeVal, w: EdgeVal, events: set<Event>)
    requires EdgeGrown(b, v, events) && EdgeGrown(b, w, events)
    ensures v == w
  {
  }

  lemma SummaryDeterminesEdges(base: Graph, g: Graph, h: Graph, events: set<Event>)
    requires Summarises(base, g, events) && Summarises(base, h, events)
    ensures g.edges == h.edges
  {
    hide NodeEvents, EdgeEvents, EdgeSummary, EdgeGrown, NodeFrom, Coherent;
    forall d ensures d in g.edges <==> d in h.edges {
      assert EdgeSummarised(base, g, events, d) && EdgeSummarised(base, h, events, d);
    }
    forall d | d in g.edges ensures g.edges[d] == h.edges[d] {
      assert EdgeSummarised(base, g, events, d) && EdgeSummarised(base, h, events, d);
      if d in base.edges {
        SameGrownEdge(base.edges[d], g.edges[d], h.edges[d], EdgeEvents(events, d));
      } else {
        EdgeUnique(g.edges[d], h.edges[d], d, events);
      }
    }
  }

  lemma SummaryDetermines(base: Graph, g: Graph, h: Graph, events: set<Event>)
    requires Summarises(base, g, events) && Summarises(base, h, events)
    ensures SameGraph(g, h)
  {
    SummaryDeterminesNodes(base, g, h, events);
    SummaryDeterminesEdges(base, g, h, events);
    hide NodeSummarised, EdgeSummarised;
    SameIndexes(g.outgoing, h.outgoing, Sources(g.edges));
    SameIndexes(g.incoming, h.incoming, Targets(g.edges));
  }

  // ----- order and duplicates

  /** Every two ways of delivering exactly these events into `s`, repeats allowed, end alike. */
  ghost predicate OrderInsensitiveFrom(s: Store, events: set<Event>) {
    forall a, b | EventSet(a) == events && EventSet(b) == events ::
      SameGraph(Continued(s, a).graph, Continued(s, b).graph)
  }

  ghost predicate OrderInsensitive(events: set<Event>) { OrderInsensitiveFrom(FRESH_STORE, events) }

  /** Two deliveries of the same events into the same store, whatever is in it already. */
  lemma SameEventsSameGraph(s: Store, a: seq<Event>, b: seq<Event>)
    requires EventSet(a) == EventSet(b) && Coherent(s.graph) && IdsConsistent(NewTo(s, EventSet(a)))
    requires FaithfulBeyond(s.graph.edges.Keys, NewTo(s, EventSet(a)))
    ensures SameGraph(Continued(s, a).graph, Continued(s, b).graph)
    ensures Coherent(Continued(s, a).graph) && Coherent(Continued(s, b).graph)
  {
    ContinuedIsSummarised(s, a);
    ContinuedIsSummarised(s, b);
    SummaryDetermines(s.graph, Continued(s, a).graph, Continued(s, b).graph, NewTo(s, EventSet(a)));
  }

  lemma AnyOrderFromAnyStore(s: Store, events: set<Event>)
    requires Coherent(s.graph) && IdsConsistent(NewTo(s, events))
    requires FaithfulBeyond(s.graph.edges.Keys, NewTo(s, events))
    ensures OrderInsensitiveFrom(s, events)
  {
    hide Coherent, IdsConsistent, FaithfulBeyond, SameGraph, Continued, NewTo;
    forall a, b | EventSet(a) == events && EventSet(b) == events
      ensures SameGraph(Continued(s, a).graph, Continued(s, b).graph)
    {
      SameEventsSameGraph(s, a, b);
    }
  }

  /** The instance at the empty store. */
  lemma AnyOrderSameGraph(events: set<Event>)
    requires IdsConsistent(events) && EdgeIdsFaithful(events)
    ensures OrderInsensitive(events)
  {
    AllNew(events);
    hide OrderInsensitiveFrom, FaithfulBeyond, IdsConsistent, Coherent, NewTo;
    AnyOrderFromAnyStore(FRESH_STORE, events);
  }

  lemma {:induction false} Enumerate(events: set<Event>) returns (es: seq<Event>)
    ensures EventSet(es) == events
  {
    if events == {} {
      es := [];
    } else {
      var e :| e in events;
      var rest := Enumerate(events - {e});
      es := rest + [e];
      EventSetSplit(es);
    }
  }

  ghost predicate HasEnds(g: Graph, d: EdgeId, source: EntityId, target: EntityId) {
    d in g.edges && g.edges[d].source == source && g.edges[d].target == target
  }

  lemma {:induction false} EndsKept(g: Graph, us: seq<Update>, d: EdgeId, source: EntityId, target: EntityId)
    requires HasEnds(g, d, source, target)
    ensures HasEnds(ApplyAll(g, us), d, source, target)
  {
    if us == [] {
    } else {
      EndsKept(g, us[..|us| - 1], d, source, target);
    }
  }

  lemma EndsOfFirst(s: Store, e: Event, k: EntityKind, d: EdgeId)
    requires SeesEdge(e, k, d) && e.eventId !in s.byId && d !in s.graph.edges
    ensures HasEnds(Continued(s, [e]).graph, d, EdgeFor(e, k).value.source, EdgeFor(e, k).value.target)
  {
    assert [e][..0] == [];
    EventTouchesEdge(e, k, d);
    EdgeEffect(s.graph, UpdatesOf(e), d);
  }

  /** An edge keeps the ends it got first. */
  lemma {:induction false} EndsStay(s: Store, e: Event, es: seq<Event>, d: EdgeId, source: EntityId, target: EntityId)
    requires HasEnds(Continued(s, [e]).graph, d, source, target)
    ensures HasEnds(Continued(s, [e] + es).graph, d, source, target)
  {
    if es == [] {
      assert [e] + es == [e];
    } else {
      var all := [e] + es;
      assert all[..|all| - 1] == [e] + es[..|es| - 1];
      EndsStay(s, e, es[..|es| - 1], d, source, target);
      EndsKept(Continued(s, all[..|all| - 1]).graph, UpdatesOf(all[|all| - 1]), d, source, target);
    }
  }

  lemma PrependKnown(e: Event, es: seq<Event>)
    requires e in EventSet(es)
    ensures EventSet([e] + es) == EventSet(es)
  {
  }

  lemma DifferentEndsBreakOrder(
    s: Store, events: set<Event>, a: seq<Event>, b: seq<Event>, d: EdgeId, source: EntityId, target: EntityId,
    source': EntityId, target': EntityId)
    requires EventSet(a) == events && EventSet(b) == events
    requires HasEnds(Continued(s, a).graph, d, source, target) && HasEnds(Continued(s, b).graph, d, source', target')
    requires source != source' || target != target'
    ensures !OrderInsensitiveFrom(s, events)
  {
    assert !SameGraph(Continued(s, a).graph, Continued(s, b).graph);
  }

  /** Two new events that write one new edge id with different ends do not commute. */
  lemma CollisionBreaksOrder(
    s: Store, events: set<Event>, e: Event, k: EntityKind, f: Event, l: EntityKind, d: EdgeId)
    requires e in NewTo(s, events) && f in NewTo(s, events) && SeesEdge(e, k, d) && SeesEdge(f, l, d)
    requires d !in s.graph.edges
    requires EdgeFor(e, k).value.source != EdgeFor(f, l).value.source
             || EdgeFor(e, k).value.target != EdgeFor(f, l).value.target
    ensures !OrderInsensitiveFrom(s, events)
  {
    var es := Enumerate(events);
    PrependKnown(e, es);
    PrependKnown(f, es);
    var v, w := EdgeFor(e, k).value, EdgeFor(f, l).value;
    EndsOfFirst(s, e, k, d);
    EndsOfFirst(s, f, l, d);
    EndsStay(s, e, es, d, v.source, v.target);
    EndsStay(s, f, es, d, w.source, w.target);
    DifferentEndsBreakOrder(s, events, [e] + es, [f] + es, d, v.source, v.target, w.source, w.target);
  }

  /** On any coherent store, what comes out is independent of delivery order and repetition
      exactly when no two of the new events write the same new edge id with different ends. */
  lemma OrderInsensitiveExactly(s: Store, events: set<Event>)
    requires Coherent(s.graph) && IdsConsistent(NewTo(s, events))
    ensures OrderInsensitiveFrom(s, events) <==> FaithfulBeyond(s.graph.edges.Keys, NewTo(s, events))
  {
    hide Coherent, IdsConsistent, OrderInsensitiveFrom, EdgeFor;
    var incoming, known := NewTo(s, events), s.graph.edges.Keys;
    if FaithfulBeyond(known, incoming) {
      AnyOrderFromAnyStore(s, events);
    } else {
      var e, f, k, l, d :| e in incoming && f in incoming && SeesEdge(e, k, d) && SeesEdge(f, l, d) && d !in known
        && (EdgeFor(e, k).value.source != EdgeFor(f, l).value.source
            || EdgeFor(e, k).value.target != EdgeFor(f, l).value.target);
      CollisionBreaksOrder(s, events, e, k, f, l, d);
    }
  }

  /** The instance at the empty store. */
  lemma OrderInsensitiveExactlyWhenFaithful(events: set<Event>)
    requires IdsConsistent(events)
    ensures OrderInsensitive(events) <==> EdgeIdsFaithful(events)
  {
    AllNew(events);
    hide OrderInsensitiveFrom, FaithfulBeyond, IdsConsistent, Coherent, NewTo;
    OrderInsensitiveExactly(FRESH_STORE, events);
  }

  // ----- two events that collide

  predicate Clean(s: string) { s != [] && !IsSpace(s[0]) && !IsSpace(s[|s| - 1]) }

  const Uses := ":USES_DEVICE:"

  lemma DeviceEdge(e: Event, transaction: string, device: string)
    requires e.transactionId == transaction && e.deviceToken == Some(device)
    requires Clean(transaction) && Clean(device) && !("txn_" <= transaction) && "dev_" <= device
    ensures SeesEdge(e, Device, EdgeId("txn_" + transaction + Uses + device))
    ensures EdgeFor(e, Device).value.source == EntityId("txn_" + transaction)
  {
    NothingToStrip(transaction);
    NothingToStrip(device);
  }

  /** `e` reports the device token `dev_x:USES_DEVICE:dev_y` for transaction `t`, and `f` the
      token `dev_y` for transaction `t:USES_DEVICE:dev_x`. */
  predicate Collide(e: Event, f: Event, t: string, x: string, y: string) {
    && e.transactionId == t && e.deviceToken == Some(x + Uses + y)
    && f.transactionId == t + Uses + x && f.deviceToken == Some(y)
  }

  /** A device token that spells a relationship: for any clean `t`, `x` and `y` both events
      write one edge id, from different transactions, and so do not commute. */
  lemma SpelledTokensCollide(e: Event, f: Event, t: string, x: string, y: string)
    requires Collide(e, f, t, x, y) && e.eventId != f.eventId
    requires Clean(t) && !("txn_" <= t + Uses) && "dev_" <= x && Clean(x) && "dev_" <= y && Clean(y)
    ensures IdsConsistent({e, f}) && !EdgeIdsFaithful({e, f}) && !OrderInsensitive({e, f})
  {
    var d := SharedEdge(e, f, t, x, y);
    DistinctIds(e, f);
    AllNew({e, f});
    assert FRESH_STORE.graph.edges == map[];
    assert OrderInsensitive({e, f}) <==> OrderInsensitiveFrom(FRESH_STORE, {e, f});
    hide *;
    CollisionBreaksOrder(FRESH_STORE, {e, f}, e, Device, f, Device, d);
    OrderInsensitiveExactlyWhenFaithful({e, f});
  }

  lemma SharedEdge(e: Event, f: Event, t: string, x: string, y: string) returns (d: EdgeId)
    requires Collide(e, f, t, x, y)
    requires Clean(t) && !("txn_" <= t + Uses) && "dev_" <= x && Clean(x) && "dev_" <= y && Clean(y)
    ensures SeesEdge(e, Device, d) && SeesEdge(f, Device, d)
    ensures EdgeFor(e, Device).value.source != EdgeFor(f, Device).value.source
  {
    hide EdgeFor, Clean;
    CleanParts(t, x, y);
    DeviceEdge(e, t, x + Uses + y);
    DeviceEdge(f, t + Uses + x, y);
    d := EdgeId("txn_" + t + Uses + (x + Uses + y));
    Regroup("txn_", t, Uses, x, y);
    assert |"txn_" + (t + Uses + x)| > |"txn_" + t|;
  }

  lemma Regroup(p: string, t: string, u: string, x: string, y: string)
    ensures p + t + u + (x + u + y) == p + (t + u + x) + u + y
  {
  }

  lemma DistinctIds(e: Event, f: Event)
    requires e.eventId != f.eventId
    ensures IdsConsistent({e, f})
  {
  }

  lemma CleanParts(t: string, x: string, y: string)
    requires Clean(t) && !("txn_" <= t + Uses) && "dev_" <= x && Clean(x) && "dev_" <= y && Clean(y)
    ensures Clean(x + Uses + y) && "dev_" <= x + Uses + y
    ensures Clean(t + Uses + x) && !("txn_" <= t) && !("txn_" <= t + Uses + x)
  {
    assert |Uses| == 13;
    assert (t + Uses + x)[..4] == (t + Uses)[..4];
  }

  function Sighting(id: string, transaction: string, device: string): Event {
    Event(id, "transaction.created", transaction, "m", 0, None, Some(device), None, None, None, None)
  }

  /** In particular there are such events. */
  lemma CollidingEventsExist()
    ensures var events := {Sighting("e", "A", "dev_x" + Uses + "dev_y"), Sighting("ff", "A" + Uses + "dev_x", "dev_y")};
      IdsConsistent(events) && !OrderInsensitive(events)
  {
    assert |"e"| != |"ff"| && ("A" + Uses)[0] == 'A';
    SpelledTokensCollide(
      Sighting("e", "A", "dev_x" + Uses + "dev_y"), Sighting("ff", "A" + Uses + "dev_x", "dev_y"), "A", "dev_x", "dev_y");
  }
}
