/** The event store and `process_integration_event` on the shared graph object. */
module EventProcessor {
  import opened GraphModel
  import opened EventUpdates
  import opened IngestionOrder
  import opened EntityGraphs

  class IntegrationEventRepository {
    var eventsById: map<string, Event>
    var eventsByTxn: map<string, seq<Event>>

    constructor ()
      ensures eventsById == map[] && eventsByTxn == map[]
    {
      eventsById, eventsByTxn := map[], map[];
    }

    /** Store the event unless its id is known; says whether it was new. */
    method Save(event: Event) returns (isNew: bool)
      modifies this
      ensures isNew <==> event.eventId !in old(eventsById)
      ensures forall g :: Store(eventsById, eventsByTxn, g) == Saved(Store(old(eventsById), old(eventsByTxn), g), event)
    {
      if event.eventId in eventsById {
        return false;
      }
      eventsById := eventsById[event.eventId := event];
      if event.transactionId !in eventsByTxn {
        eventsByTxn := eventsByTxn[event.transactionId := []];
      }
      eventsByTxn := eventsByTxn[event.transactionId := eventsByTxn[event.transactionId] + [event]];
      return true;
    }
  }

  /** Write one update through the graph's own operations. */
  method Write(graph: EntityGraph, u: Update)
    requires graph.Valid()
    modifies graph, graph.nodes.Values, graph.edges.Values
    ensures graph.Valid() && graph.view == Apply(old(graph.view), u)
    ensures forall o | o in graph.nodes.Values :: o in old(graph.nodes.Values) || fresh(o)
    ensures forall o | o in graph.edges.Values :: o in old(graph.edges.Values) || fresh(o)
  {
    match u
    case NodeUpdate(n) =>
      var node := new EntityNode(n);
      graph.AddNode(node);
    case EdgeUpdate(e) =>
      var edge := new EntityEdge(e);
      graph.AddEdge(edge);
  }

  /** One kind of one event: its node, then its edge. */
  method WriteBlock(graph: EntityGraph, event: Event, kind: EntityKind)
    requires graph.Valid()
    modifies graph, graph.nodes.Values, graph.edges.Values
    ensures graph.Valid() && graph.view == ApplyAll(old(graph.view), Block(event, kind))
    ensures forall o | o in graph.nodes.Values :: o in old(graph.nodes.Values) || fresh(o)
    ensures forall o | o in graph.edges.Values :: o in old(graph.edges.Values) || fresh(o)
  {
    var node, edge := NodeFor(event, kind), EdgeFor(event, kind);
    if node.Some? {
      Write(graph, NodeUpdate(node.value));
    }
    if edge.Some? {
      Write(graph, EdgeUpdate(edge.value));
    }
    ApplyBlock(old(graph.view), event, kind);
  }

  lemma ApplyBlock(g: Graph, e: Event, k: EntityKind)
    ensures var n, d := NodeFor(e, k), EdgeFor(e, k);
      var h := if n.Some? then Apply(g, NodeUpdate(n.value)) else g;
      ApplyAll(g, Block(e, k)) == if d.Some? then Apply(h, EdgeUpdate(d.value)) else h
  {
    var n, d := NodeFor(e, k), EdgeFor(e, k);
    var first := if n.Some? then [NodeUpdate(n.value)] else [];
    var second := if d.Some? then [EdgeUpdate(d.value)] else [];
    assert Block(e, k) == first + second;
    ApplyAppend(g, first, second);
    if n.Some? { ApplyOne(g, NodeUpdate(n.value)); }
    if d.Some? { ApplyOne(ApplyAll(g, first), EdgeUpdate(d.value)); }
  }

  lemma ApplyOne(g: Graph, u: Update)
    ensures ApplyAll(g, [u]) == Apply(g, u)
  {
    assert [u][..0] == [];
  }

  /** Write the merchant and transaction, then each token the event carries. */
  method WriteEvent(graph: EntityGraph, event: Event)
    requires graph.Valid()
    modifies graph, graph.nodes.Values, graph.edges.Values
    ensures graph.Valid() && graph.view == ApplyAll(old(graph.view), UpdatesOf(event))
    ensures forall o | o in graph.nodes.Values :: o in old(graph.nodes.Values) || fresh(o)
    ensures forall o | o in graph.edges.Values :: o in old(graph.edges.Values) || fresh(o)
  {
    hide *;
    SixBlocks(graph.view, event);
    WriteBlock(graph, event, Merchant);
    WriteBlock(graph, event, Transaction);
    WriteBlock(graph, event, Device);
    WriteBlock(graph, event, Ip);
    WriteBlock(graph, event, Account);
    WriteBlock(graph, event, PaymentInstrument);
  }

  lemma SixBlocks(g: Graph, e: Event)
    ensures var g1 := ApplyAll(g, Block(e, Merchant));
      var g2 := ApplyAll(g1, Block(e, Transaction));
      var g3 := ApplyAll(g2, Block(e, Device));
      var g4 := ApplyAll(g3, Block(e, Ip));
      var g5 := ApplyAll(g4, Block(e, Account));
      ApplyAll(g, UpdatesOf(e)) == ApplyAll(g5, Block(e, PaymentInstrument))
  {
    BlocksNext(g, e, 0);
    BlocksNext(g, e, 1);
    BlocksNext(g, e, 2);
    BlocksNext(g, e, 3);
    BlocksNext(g, e, 4);
    BlocksNext(g, e, 5);
  }

  lemma BlocksNext(g: Graph, e: Event, i: nat)
    ensures ApplyAll(g, Blocks(e, i + 1)) == ApplyAll(ApplyAll(g, Blocks(e, i)), Block(e, KindAt(i)))
  {
    ApplyAppend(g, Blocks(e, i), Block(e, KindAt(i)));
  }

  /** Ingest one event; a known event id changes neither the store nor the graph. */
  method ProcessIntegrationEvent(repo: IntegrationEventRepository, graph: EntityGraph, event: Event)
    returns (isNew: bool)
    requires graph.Valid()
    modifies repo, graph, graph.nodes.Values, graph.edges.Values
    ensures graph.Valid()
    ensures isNew <==> event.eventId !in old(repo.eventsById)
    ensures Store(repo.eventsById, repo.eventsByTxn, graph.view) ==
            Processed(Store(old(repo.eventsById), old(repo.eventsByTxn), old(graph.view)), event)
    ensures forall o | o in graph.nodes.Values :: o in old(graph.nodes.Values) || fresh(o)
    ensures forall o | o in graph.edges.Values :: o in old(graph.edges.Values) || fresh(o)
  {
    ghost var before := graph.view;
    isNew := repo.Save(event);
    assert Store(repo.eventsById, repo.eventsByTxn, before) ==
           Saved(Store(old(repo.eventsById), old(repo.eventsByTxn), before), event);
    if isNew {
      WriteEvent(graph, event);
    }
  }
}
