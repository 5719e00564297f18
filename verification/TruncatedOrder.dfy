/** A search that is cut short reads the order of the adjacency lists, and so of the deliveries:
    two orders of the same two events can give an entity different scores. */
module TruncatedOrder {
  import opened Options
  import opened EntityIds
  import opened GraphModel
  import opened Traversal
  import opened EventUpdates
  import opened IngestionOrder
  import opened EventProcessor
  import opened IngestedScores
  import opened CutSearch

  // ----- what an event with only a device adds

  predicate OnlyDevice(e: Event) {
    e.ipToken.None? && e.accountToken.None? && e.instrumentToken.None? && Present(e.deviceToken).Some?
  }

  function MerchantOf(e: Event): EntityId { MakeEntityId(Merchant, e.merchantId) }

  function TransactionOf(e: Event): EntityId { MakeEntityId(Transaction, e.transactionId) }

  function DeviceOf(e: Event): EntityId
    requires OnlyDevice(e)
  {
    MakeEntityId(Device, e.deviceToken.value)
  }

  /** One new edge, one list entry at each end. */
  function Entry(x: EntityId, end: EntityId, k: EdgeId): seq<EdgeId> { if x == end then [k] else [] }

  /** What is appended to the list of `x`, for one end of an event's two edges. */
  function Added(x: EntityId, first: EntityId, k: EdgeId, second: EntityId, l: EdgeId): seq<EdgeId> {
    Entry(x, first, k) + Entry(x, second, l)
  }

  lemma OneEdge(g: Graph, v: EdgeVal, x: EntityId)
    requires v.id !in g.edges
    ensures var h := AddEdge(g, v);
      && h.edges == g.edges[v.id := v] && h.nodes == g.nodes
      && Listed(h.outgoing, x) == Listed(g.outgoing, x) + Entry(x, v.source, v.id)
      && Listed(h.incoming, x) == Listed(g.incoming, x) + Entry(x, v.target, v.id)
  {
  }

  lemma TwoEdges(g: Graph, v: EdgeVal, w: EdgeVal, n: NodeVal, x: EntityId)
    requires v.id !in g.edges && w.id !in g.edges && v.id != w.id
    ensures var h := AddEdge(AddNode(AddEdge(g, v), n), w);
      && h.edges == g.edges[v.id := v][w.id := w]
      && h.nodes == AddNode(g, n).nodes
      && Listed(h.outgoing, x) == Listed(g.outgoing, x) + Added(x, v.source, v.id, w.source, w.id)
      && Listed(h.incoming, x) == Listed(g.incoming, x) + Added(x, v.target, v.id, w.target, w.id)
  {
    OneEdge(g, v, x);
    var g1 := AddNode(AddEdge(g, v), n);
    OneEdge(g1, w, x);
    hide AddEdge, Entry;
    Append(Listed(g.outgoing, x), Entry(x, v.source, v.id), Entry(x, w.source, w.id));
    Append(Listed(g.incoming, x), Entry(x, v.target, v.id), Entry(x, w.target, w.id));
    assert g1.outgoing == AddEdge(g, v).outgoing && g1.incoming == AddEdge(g, v).incoming;
    hide Listed, AddNode;
  }

  lemma Append(a: seq<EdgeId>, b: seq<EdgeId>, c: seq<EdgeId>)
    ensures a + b + c == a + (b + c)
  {
  }

  lemma DeviceEventUpdates(g: Graph, e: Event)
    requires OnlyDevice(e)
    ensures EdgeFor(e, Transaction).Some? && EdgeFor(e, Device).Some?
    ensures NodeFor(e, Merchant).Some? && NodeFor(e, Transaction).Some? && NodeFor(e, Device).Some?
    ensures ApplyAll(g, UpdatesOf(e)) ==
            AddEdge(AddNode(AddEdge(AddNode(AddNode(g, NodeFor(e, Merchant).value), NodeFor(e, Transaction).value),
                                    EdgeFor(e, Transaction).value), NodeFor(e, Device).value),
                    EdgeFor(e, Device).value)
  {
    NoTokens(e);
    hide NodeFor, EdgeFor, Block, UpdatesOf, AddNode, AddEdge, ApplyAll;
    var g1 := ApplyAll(g, Block(e, Merchant));
    var g2 := ApplyAll(g1, Block(e, Transaction));
    var g3 := ApplyAll(g2, Block(e, Device));
    SixBlocks(g, e);
    ApplyBlock(g, e, Merchant);
    ApplyBlock(g1, e, Transaction);
    ApplyBlock(g2, e, Device);
    ApplyBlock(g3, e, Ip);
    ApplyBlock(g3, e, Account);
    ApplyBlock(g3, e, PaymentInstrument);
  }

  lemma NoTokens(e: Event)
    requires OnlyDevice(e)
    ensures EdgeFor(e, Transaction).Some? && EdgeFor(e, Device).Some? && EdgeFor(e, Merchant).None?
    ensures NodeFor(e, Merchant).Some? && NodeFor(e, Transaction).Some? && NodeFor(e, Device).Some?
    ensures forall k | k == Ip || k == Account || k == PaymentInstrument :: NodeFor(e, k).None? && EdgeFor(e, k).None?
    ensures NodeFor(e, Device).value.id == DeviceOf(e)
    ensures var v, w := EdgeFor(e, Transaction).value, EdgeFor(e, Device).value;
      v.source == TransactionOf(e) && v.target == MerchantOf(e) && w.source == TransactionOf(e) && w.target == DeviceOf(e)
  {
  }

  /** The lists one such event extends. */
  lemma AfterDeviceEvent(g: Graph, e: Event, x: EntityId)
    requires OnlyDevice(e) && EdgeFor(e, Transaction).Some? && EdgeFor(e, Device).Some?
    requires EdgeFor(e, Transaction).value.id !in g.edges && EdgeFor(e, Device).value.id !in g.edges
    ensures var h, v, w := ApplyAll(g, UpdatesOf(e)), EdgeFor(e, Transaction).value, EdgeFor(e, Device).value;
      && h.edges == g.edges[v.id := v][w.id := w] && v.id != w.id
      && DeviceOf(e) in h.nodes
      && Listed(h.outgoing, x) == Listed(g.outgoing, x) + Added(x, v.source, v.id, w.source, w.id)
      && Listed(h.incoming, x) == Listed(g.incoming, x) + Added(x, v.target, v.id, w.target, w.id)
  {
    DeviceEventUpdates(g, e);
    NoTokens(e);
    EdgesOfOneDiffer(e);
    hide NodeFor, EdgeFor, UpdatesOf, ApplyAll, DeviceOf;
    var g2 := AddNode(AddNode(g, NodeFor(e, Merchant).value), NodeFor(e, Transaction).value);
    TwoEdges(g2, EdgeFor(e, Transaction).value, EdgeFor(e, Device).value, NodeFor(e, Device).value, x);
  }

  lemma EdgesOfOneDiffer(e: Event)
    requires EdgeFor(e, Transaction).Some? && EdgeFor(e, Device).Some?
    ensures EdgeFor(e, Transaction).value.id != EdgeFor(e, Device).value.id
  {
    hide EdgeFor;
    if EdgeFor(e, Transaction).value.id == EdgeFor(e, Device).value.id {
      EdgeKindUnique(e, Transaction, Device);
    }
  }

  /** Two new events of different new transactions at different merchants, on one device. */
  ghost predicate ShareDevice(s: Store, e: Event, f: Event) {
    && e.eventId != f.eventId && e.eventId !in s.byId && f.eventId !in s.byId
    && OnlyDevice(e) && OnlyDevice(f) && DeviceOf(e) == DeviceOf(f)
    && TransactionOf(e) != TransactionOf(f) && MerchantOf(e) != MerchantOf(f)
    && Touching(s.graph, TransactionOf(e)) == [] && Touching(s.graph, TransactionOf(f)) == []
    && NewEdges(s.graph, e) && NewEdges(s.graph, f) && EdgeIdsFaithful({e, f})
  }

  ghost predicate NewEdges(g: Graph, e: Event) {
    forall k | EdgeFor(e, k).Some? :: EdgeFor(e, k).value.id !in g.edges
  }

  lemma ContinuedTwo(s: Store, e: Event, f: Event)
    requires e.eventId != f.eventId && e.eventId !in s.byId && f.eventId !in s.byId
    ensures Continued(s, [e, f]).graph == ApplyAll(ApplyAll(s.graph, UpdatesOf(e)), UpdatesOf(f))
  {
    hide UpdatesOf, ApplyAll;
    assert [e, f][..1] == [e] && [e][..0] == [];
    assert Continued(s, []) == s;
    assert Continued(s, [e]) == Processed(s, e);
  }

  lemma DistinctEdges(e: Event, f: Event, k: EntityKind, l: EntityKind)
    requires EdgeIdsFaithful({e, f}) && EdgeFor(e, k).Some? && EdgeFor(f, l).Some?
    requires EdgeFor(e, k).value.source != EdgeFor(f, l).value.source
    ensures EdgeFor(e, k).value.id != EdgeFor(f, l).value.id
  {
    hide EdgeFor;
    assert SeesEdge(e, k, EdgeFor(e, k).value.id) && SeesEdge(f, l, EdgeFor(f, l).value.id);
  }

  lemma EdgesApart(s: Store, e: Event, f: Event)
    requires ShareDevice(s, e, f)
    ensures EdgeFor(e, Transaction).Some? && EdgeFor(e, Device).Some?
    ensures EdgeFor(f, Transaction).Some? && EdgeFor(f, Device).Some?
    ensures EdgeFor(e, Transaction).value.id != EdgeFor(f, Transaction).value.id
    ensures EdgeFor(e, Transaction).value.id != EdgeFor(f, Device).value.id
    ensures EdgeFor(e, Device).value.id != EdgeFor(f, Transaction).value.id
    ensures EdgeFor(e, Device).value.id != EdgeFor(f, Device).value.id
  {
    NoTokens(e);
    NoTokens(f);
    hide EdgeFor, EdgeIdsFaithful, TransactionOf, MerchantOf, DeviceOf, OnlyDevice;
    DistinctEdges(e, f, Transaction, Transaction);
    DistinctEdges(e, f, Transaction, Device);
    DistinctEdges(e, f, Device, Transaction);
    DistinctEdges(e, f, Device, Device);
  }

  lemma KindsApart(e: Event, f: Event)
    requires OnlyDevice(e) && OnlyDevice(f)
    ensures DeviceOf(e) != TransactionOf(f) && DeviceOf(e) != MerchantOf(f) && TransactionOf(e) != MerchantOf(f)
  {
    hide MakeEntityId;
    if DeviceOf(e) == TransactionOf(f) { IdDeterminesKind(Device, e.deviceToken.value, Transaction, f.transactionId); }
    if DeviceOf(e) == MerchantOf(f) { IdDeterminesKind(Device, e.deviceToken.value, Merchant, f.merchantId); }
    if TransactionOf(e) == MerchantOf(f) { IdDeterminesKind(Transaction, e.transactionId, Merchant, f.merchantId); }
  }

  /** The facts about the two events that the lists depend on. */
  lemma AllApart(s: Store, e: Event, f: Event)
    requires ShareDevice(s, e, f)
    ensures OnlyDevice(e) && OnlyDevice(f)
    ensures DeviceOf(e) != TransactionOf(e) && DeviceOf(e) != MerchantOf(e) && DeviceOf(e) != TransactionOf(f)
    ensures DeviceOf(e) != MerchantOf(f) && TransactionOf(e) != MerchantOf(e) && TransactionOf(e) != MerchantOf(f)
    ensures TransactionOf(f) != MerchantOf(e) && TransactionOf(f) != MerchantOf(f)
    ensures TransactionOf(e) != TransactionOf(f) && DeviceOf(e) == DeviceOf(f) && MerchantOf(e) != MerchantOf(f)
  {
    KindsApart(e, e);
    KindsApart(e, f);
    KindsApart(f, e);
    KindsApart(f, f);
  }

  /** The two lists of any id after both events. */
  lemma ListsAfterBoth(s: Store, e: Event, f: Event, x: EntityId)
    requires ShareDevice(s, e, f)
    ensures EdgeFor(e, Transaction).Some? && EdgeFor(e, Device).Some?
    ensures EdgeFor(f, Transaction).Some? && EdgeFor(f, Device).Some?
    ensures var g := Continued(s, [e, f]).graph;
      var v, w, p, q := EdgeFor(e, Transaction).value, EdgeFor(e, Device).value,
                        EdgeFor(f, Transaction).value, EdgeFor(f, Device).value;
      && DeviceOf(e) in g.nodes
      && g.edges == s.graph.edges[v.id := v][w.id := w][p.id := p][q.id := q]
      && Listed(g.outgoing, x) == Listed(s.graph.outgoing, x) + Added(x, v.source, v.id, w.source, w.id)
                                  + Added(x, p.source, p.id, q.source, q.id)
      && Listed(g.incoming, x) == Listed(s.graph.incoming, x) + Added(x, v.target, v.id, w.target, w.id)
                                  + Added(x, p.target, p.id, q.target, q.id)
  {
    ContinuedTwo(s, e, f);
    AllApart(s, e, f);
    EdgesApart(s, e, f);
    assert OnlyDevice(e) && OnlyDevice(f) && NewEdges(s.graph, e) && NewEdges(s.graph, f);
    var h := ApplyAll(s.graph, UpdatesOf(e));
    var v, w, p, q := EdgeFor(e, Transaction).value, EdgeFor(e, Device).value,
                      EdgeFor(f, Transaction).value, EdgeFor(f, Device).value;
    assert v.id !in s.graph.edges && w.id !in s.graph.edges && p.id !in s.graph.edges && q.id !in s.graph.edges;
    hide *;
    AfterDeviceEvent(s.graph, e, x);
    assert h.edges == s.graph.edges[v.id := v][w.id := w];
    AfterDeviceEvent(h, f, x);
  }

  // ----- neighbours after both events

  /** Around the device, known neighbours that lead nowhere else. */
  ghost predicate Crowded(g: Graph, d: EntityId, ns: seq<EntityId>) {
    && Coherent(g) && Neighbors(g, d, None) == ns
    && Distinct(ns)
    && (forall v | v in ns :: OfKind(v, Transaction) && v != d && Neighbors(g, v, None) == [d])
  }

  lemma AllVisible(g: Graph, x: EntityId)
    requires Coherent(g)
    ensures Incident(g, x, None) == Touching(g, x)
    ensures forall i | 0 <= i < |Touching(g, x)| :: Touching(g, x)[i] in g.edges
  {
    forall i | 0 <= i < |Touching(g, x)| ensures Touching(g, x)[i] in g.edges {
      TouchingMember(g, x, Touching(g, x)[i]);
    }
    EverythingVisible(g, Touching(g, x));
  }

  /** Further edges at the end of a list add their far ends at the end of the neighbours. */
  lemma NeighborsGrow(g: Graph, h: Graph, x: EntityId, more: seq<EdgeId>)
    requires Coherent(g) && Coherent(h) && Touching(h, x) == Touching(g, x) + more
    requires forall k | k in g.edges :: k in h.edges && h.edges[k] == g.edges[k]
    ensures Neighbors(h, x, None) == Neighbors(g, x, None) + Ends(h, more, x)
  {
    AllVisible(g, x);
    AllVisible(h, x);
    hide Touching, Incident, Coherent;
    var a, b := Ends(g, Touching(g, x), x), Ends(h, Touching(g, x), x);
    assert a == b;
    assert Ends(h, Touching(g, x) + more, x) == b + Ends(h, more, x);
  }

  lemma EdgesKept(s: Store, e: Event, f: Event)
    requires ShareDevice(s, e, f)
    ensures var g := Continued(s, [e, f]).graph;
      && (forall k | k in s.graph.edges :: k in g.edges && g.edges[k] == s.graph.edges[k])
  {
    ListsAfterBoth(s, e, f, DeviceOf(e));
    EdgesApart(s, e, f);
    assert NewEdges(s.graph, e) && NewEdges(s.graph, f);
    hide EdgeFor, Continued, ShareDevice, Listed, OnlyDevice, DeviceOf;
  }

  lemma EndsOfTwo(g: Graph, x: EntityId, k: EdgeId, l: EdgeId, a: EntityId, b: EntityId)
    requires k in g.edges && l in g.edges
    requires OtherEnd(g.edges[k], x) == a && OtherEnd(g.edges[l], x) == b
    ensures Ends(g, [k, l], x) == [a, b]
  {
  }

  /** A list that only grows at its incoming end. */
  lemma GrowIncoming(g0: Graph, g: Graph, x: EntityId, a: seq<EdgeId>, b: seq<EdgeId>, c: seq<EdgeId>, d: seq<EdgeId>)
    requires Listed(g.outgoing, x) == Listed(g0.outgoing, x) + a + b && a == [] && b == []
    requires Listed(g.incoming, x) == Listed(g0.incoming, x) + c + d
    ensures Touching(g, x) == Touching(g0, x) + (c + d)
  {
    hide Listed;
    var o, i := Listed(g0.outgoing, x), Listed(g0.incoming, x);
    assert o + a + b == o;
    assert o + (i + c + d) == (o + i) + (c + d);
  }

  /** The edges both events write, as they are found afterwards. */
  lemma EdgesFound(s: Store, e: Event, f: Event)
    requires ShareDevice(s, e, f)
    ensures EdgeFor(e, Transaction).Some? && EdgeFor(e, Device).Some?
    ensures EdgeFor(f, Transaction).Some? && EdgeFor(f, Device).Some?
    ensures var g := Continued(s, [e, f]).graph;
      var v, w, p, q := EdgeFor(e, Transaction).value, EdgeFor(e, Device).value,
                        EdgeFor(f, Transaction).value, EdgeFor(f, Device).value;
      && v.id in g.edges && g.edges[v.id] == v && w.id in g.edges && g.edges[w.id] == w
      && q.id in g.edges && g.edges[q.id] == q
      && v.source == TransactionOf(e) && v.target == MerchantOf(e)
      && w.source == TransactionOf(e) && w.target == DeviceOf(e)
      && p.source == TransactionOf(f) && p.target == MerchantOf(f)
      && q.source == TransactionOf(f) && q.target == DeviceOf(f)
  {
    ListsAfterBoth(s, e, f, DeviceOf(e));
    NoTokens(e);
    NoTokens(f);
    EdgesApart(s, e, f);
    EdgesOfOneDiffer(e);
    hide EdgeFor, NodeFor, DeviceOf, TransactionOf, MerchantOf, Continued, ShareDevice, Listed, OnlyDevice, Added;
  }

  /** Around the device both transactions come last, in delivery order. */
  lemma AroundDevice(s: Store, e: Event, f: Event)
    requires ShareDevice(s, e, f) && Coherent(s.graph)
    ensures var g := Continued(s, [e, f]).graph;
      && Coherent(g) && DeviceOf(e) in g.nodes
      && Neighbors(g, DeviceOf(e), None)
         == Neighbors(s.graph, DeviceOf(e), None) + [TransactionOf(e), TransactionOf(f)]
  {
    DeliveriesKeepBare(s, [e, f]);
    ListsAfterBoth(s, e, f, DeviceOf(e));
    EdgesKept(s, e, f);
    EdgesFound(s, e, f);
    AllApart(s, e, f);
    assert OnlyDevice(e) && OnlyDevice(f);
    var g, d, t, u := Continued(s, [e, f]).graph, DeviceOf(e), TransactionOf(e), TransactionOf(f);
    var v, w, p, q := EdgeFor(e, Transaction).value, EdgeFor(e, Device).value,
                      EdgeFor(f, Transaction).value, EdgeFor(f, Device).value;
    hide EdgeFor, NodeFor, DeviceOf, TransactionOf, MerchantOf, Continued, Neighbors, Coherent, ShareDevice, Listed,
      OnlyDevice, Ends, Touching;
    assert Added(d, v.source, v.id, w.source, w.id) == [] && Added(d, p.source, p.id, q.source, q.id) == [];
    assert Added(d, v.target, v.id, w.target, w.id) == [w.id] && Added(d, p.target, p.id, q.target, q.id) == [q.id];
    assert OtherEnd(w, d) == t && OtherEnd(q, d) == u;
    hide *;
    GrowIncoming(s.graph, g, d, [], [], [w.id], [q.id]);
    assert [w.id] + [q.id] == [w.id, q.id];
    NeighborsGrow(s.graph, g, d, [w.id, q.id]);
    EndsOfTwo(g, d, w.id, q.id, t, u);
  }

  /** Around the first transaction, its merchant and then the device. */
  lemma AroundTransaction(s: Store, e: Event, f: Event)
    requires ShareDevice(s, e, f) && Coherent(s.graph)
    ensures Neighbors(Continued(s, [e, f]).graph, TransactionOf(e), None) == [MerchantOf(e), DeviceOf(e)]
  {
    DeliveriesKeepBare(s, [e, f]);
    ListsAfterBoth(s, e, f, TransactionOf(e));
    EdgesKept(s, e, f);
    EdgesFound(s, e, f);
    AllApart(s, e, f);
    assert OnlyDevice(e) && OnlyDevice(f);
    var g, t, m, d := Continued(s, [e, f]).graph, TransactionOf(e), MerchantOf(e), DeviceOf(e);
    var v, w, p, q := EdgeFor(e, Transaction).value, EdgeFor(e, Device).value,
                      EdgeFor(f, Transaction).value, EdgeFor(f, Device).value;
    assert Touching(s.graph, t) == [];
    NothingAround(s.graph, t);
    hide EdgeFor, NodeFor, DeviceOf, TransactionOf, MerchantOf, Continued, Neighbors, Coherent, ShareDevice, Listed,
      OnlyDevice, Ends, Touching;
    assert Added(t, v.source, v.id, w.source, w.id) == [v.id, w.id] && Added(t, p.source, p.id, q.source, q.id) == [];
    assert Added(t, v.target, v.id, w.target, w.id) == [] && Added(t, p.target, p.id, q.target, q.id) == [];
    assert OtherEnd(v, t) == m && OtherEnd(w, t) == d;
    hide *;
    OnlyOutgoing(g, t, [v.id, w.id]);
    assert [] + [v.id, w.id] == [v.id, w.id];
    NeighborsGrow(s.graph, g, t, [v.id, w.id]);
    EndsOfTwo(g, t, v.id, w.id, m, d);
    assert [] + [m, d] == [m, d];
  }

  lemma OnlyOutgoing(g: Graph, x: EntityId, ks: seq<EdgeId>)
    requires Listed(g.outgoing, x) == [] + ks + [] && Listed(g.incoming, x) == [] + [] + []
    ensures Touching(g, x) == ks
  {
    hide Listed;
    var none: seq<EdgeId> := [];
    assert none + ks + none == ks && none + none + none == none;
  }

  lemma NothingAround(g: Graph, t: EntityId)
    requires Touching(g, t) == []
    ensures Neighbors(g, t, None) == []
    ensures Listed(g.outgoing, t) == [] && Listed(g.incoming, t) == []
  {
  }

  /** Around anything the events do not name, nothing changes. */
  lemma AroundOthers(s: Store, e: Event, f: Event, x: EntityId)
    requires ShareDevice(s, e, f) && Coherent(s.graph)
    requires x != DeviceOf(e) && x != TransactionOf(e) && x != TransactionOf(f)
    requires x != MerchantOf(e) && x != MerchantOf(f)
    ensures Neighbors(Continued(s, [e, f]).graph, x, None) == Neighbors(s.graph, x, None)
  {
    DeliveriesKeepBare(s, [e, f]);
    ListsAfterBoth(s, e, f, x);
    EdgesKept(s, e, f);
    EdgesFound(s, e, f);
    AllApart(s, e, f);
    assert OnlyDevice(e) && OnlyDevice(f);
    var g := Continued(s, [e, f]).graph;
    var v, w, p, q := EdgeFor(e, Transaction).value, EdgeFor(e, Device).value,
                      EdgeFor(f, Transaction).value, EdgeFor(f, Device).value;
    hide EdgeFor, NodeFor, DeviceOf, TransactionOf, MerchantOf, Continued, Neighbors, Coherent, ShareDevice, Listed,
      OnlyDevice, Ends, Touching;
    assert Added(x, v.source, v.id, w.source, w.id) == [] && Added(x, p.source, p.id, q.source, q.id) == [];
    assert Added(x, v.target, v.id, w.target, w.id) == [] && Added(x, p.target, p.id, q.target, q.id) == [];
    hide *;
    GrowIncoming(s.graph, g, x, [], [], [], []);
    var none: seq<EdgeId> := [];
    assert none + none == none;
    NeighborsGrow(s.graph, g, x, []);
    NoEnds(g, x);
    assert Neighbors(s.graph, x, None) + [] == Neighbors(s.graph, x, None);
  }

  lemma NoEnds(g: Graph, x: EntityId)
    ensures Ends(g, [], x) == []
  {
  }

  // ----- the search in a crowd

  ghost predicate Distinct(vs: seq<EntityId>) { forall i, j | 0 <= i < j < |vs| :: vs[i] != vs[j] }

  lemma {:induction false} DistinctSize(vs: seq<EntityId>)
    requires Distinct(vs)
    ensures |set v | v in vs| == |vs|
  {
    if vs == [] {
    } else {
      var n := |vs| - 1;
      var init := vs[..n];
      assert vs == init + [vs[n]] && vs[n] !in init && Distinct(init);
      hide Distinct;
      DistinctSize(init);
      assert (set v | v in vs) == (set v | v in init) + {vs[n]};
    }
  }

  lemma RingInCrowd(g: Graph, d: EntityId, vs: seq<EntityId>)
    requires Neighbors(g, d, None) == vs && d !in vs && Distinct(vs)
    ensures Ring(g, d, None) == {d} + (set v | v in vs) && |Ring(g, d, None)| == |vs| + 1
  {
    DistinctSize(vs);
    hide Neighbors, Distinct;
  }

  /** Ids that only lead back find nothing. */
  lemma {:induction false} NothingFoundBack(g: Graph, d: EntityId, xs: seq<EntityId>, room: int)
    requires forall v | v in xs :: Neighbors(g, v, None) == [d]
    ensures FoundFrom(g, d, None, {}, xs, room) == {}
  {
    hide Neighbors;
    if xs == [] {
    } else {
      NothingFoundBack(g, d, xs[..|xs| - 1], room);
    }
  }

  lemma FirstFinds(g: Graph, d: EntityId, t: EntityId, m: EntityId)
    requires Neighbors(g, t, None) == [m, d] && t != d && m !in Ring(g, d, None)
    ensures NewFrom(g, d, None, t) == {m}
  {
    hide Neighbors;
  }

  lemma SearchInCrowd(g: Graph, d: EntityId, ns: seq<EntityId>, t: EntityId, u: EntityId, m: EntityId)
    requires d in g.nodes && Neighbors(g, d, None) == ns + [t, u] && Distinct(ns + [t, u])
    requires d !in ns + [t, u] && m !in ns + [t, u] && m != d
    requires (forall v | v in ns :: Neighbors(g, v, None) == [d]) && Neighbors(g, t, None) == [m, d]
    ensures NeighborsByHop(g, d, None, 2, |ns| + 4) == Hops((set v | v in ns) + {t, u}, {m})
  {
    hide *;
    var vs := ns + [t, u];
    RingInCrowd(g, d, vs);
    HopTwoExactly(g, d, None, |ns| + 4);
    NothingFoundBack(g, d, ns, 1);
    assert t in vs && t != d;
    FirstFinds(g, d, t, m);
    FoundStep(g, d, None, {}, ns, t, 1);
    FoundStep(g, d, None, {}, ns + [t], u, 1);
    assert ns + [t] + [u] == vs;
    assert (set v | v in vs) == (set v | v in ns) + {t, u};
  }

  // ----- what the two orders report

  lemma {:induction false} TwoMore(ns: seq<EntityId>, t: EntityId, u: EntityId)
    requires Distinct(ns) && t !in ns && u !in ns && t != u
    ensures Distinct(ns + [t, u])
  {
  }

  /** A transaction without edges is nobody's neighbour. */
  lemma NotMet(g: Graph, d: EntityId, t: EntityId)
    requires Coherent(g) && Touching(g, t) == [] && d != t
    ensures t !in Neighbors(g, d, None)
  {
    NeighborsAreLinked(g, d, t, None);
    if Linked(g, None, d, t) {
      var k :| k in g.edges && VisibleAt(g.edges[k], None) && Joins(g.edges[k], d, t);
      TouchingMember(g, t, k);
    }
  }

  lemma MerchantNotAmong(e: Event, ns: seq<EntityId>)
    requires forall v | v in ns :: OfKind(v, Transaction)
    ensures MerchantOf(e) !in ns
  {
    IdCarriesPrefix(Merchant, e.merchantId);
    if MerchantOf(e) in ns {
      PrefixesDiffer(Merchant, Transaction, MerchantOf(e).text);
    }
  }

  /** In a crowd that leaves room for four more ids, the search around the device reports the
      merchant of whichever event was delivered first. */
  lemma FirstMerchantFound(s: Store, e: Event, f: Event, ns: seq<EntityId>)
    requires ShareDevice(s, e, f) && Crowded(s.graph, DeviceOf(e), ns)
    ensures var g := Continued(s, [e, f]).graph;
      var hops := NeighborsByHop(g, DeviceOf(e), None, 2, |ns| + 4);
      hops.one == (set v | v in ns) + {TransactionOf(e), TransactionOf(f)} && hops.two == {MerchantOf(e)}
  {
    hide *;
    AllApart(s, e, f);
    CrowdedMeans(s.graph, DeviceOf(e), ns);
    AroundDevice(s, e, f);
    AroundTransaction(s, e, f);
    OthersKept(s, e, f, ns);
    NewcomersApart(s, e, f, ns);
    var g, d, t, u, m := Continued(s, [e, f]).graph, DeviceOf(e), TransactionOf(e), TransactionOf(f), MerchantOf(e);
    SearchInCrowd(g, d, ns, t, u, m);
  }

  lemma CrowdedMeans(g: Graph, d: EntityId, ns: seq<EntityId>)
    requires Crowded(g, d, ns)
    ensures Coherent(g) && Neighbors(g, d, None) == ns
  {
  }

  lemma OthersKept(s: Store, e: Event, f: Event, ns: seq<EntityId>)
    requires ShareDevice(s, e, f) && Crowded(s.graph, DeviceOf(e), ns)
    ensures forall v | v in ns :: Neighbors(Continued(s, [e, f]).graph, v, None) == [DeviceOf(e)]
  {
    NewcomersApart(s, e, f, ns);
    hide ShareDevice, Continued, Coherent, DeviceOf, TransactionOf, MerchantOf, Neighbors, OnlyDevice, OfKind, Distinct;
    forall v | v in ns ensures Neighbors(Continued(s, [e, f]).graph, v, None) == [DeviceOf(e)] {
      AroundOthers(s, e, f, v);
    }
  }

  /** The new ids are not among the known neighbours, nor among each other. */
  lemma NewcomersApart(s: Store, e: Event, f: Event, ns: seq<EntityId>)
    requires ShareDevice(s, e, f) && Crowded(s.graph, DeviceOf(e), ns)
    ensures var vs := ns + [TransactionOf(e), TransactionOf(f)];
      && Distinct(vs) && DeviceOf(e) !in vs && MerchantOf(e) !in vs && MerchantOf(f) !in vs
      && MerchantOf(e) != DeviceOf(e)
      && TransactionOf(e) !in ns && TransactionOf(f) !in ns
  {
    AllApart(s, e, f);
    MerchantNotAmong(e, ns);
    MerchantNotAmong(f, ns);
    var t, u := TransactionOf(e), TransactionOf(f);
    assert Touching(s.graph, t) == [] && Touching(s.graph, u) == [];
    NotMet(s.graph, DeviceOf(e), t);
    NotMet(s.graph, DeviceOf(e), u);
    hide ShareDevice, Coherent, DeviceOf, TransactionOf, MerchantOf, Neighbors, OfKind, Touching, Distinct;
    TwoMore(ns, t, u);
  }

  lemma SwappedShareDevice(s: Store, e: Event, f: Event)
    requires ShareDevice(s, e, f)
    ensures ShareDevice(s, f, e)
  {
    hide EdgeIdsFaithful, OnlyDevice, DeviceOf, TransactionOf, MerchantOf, NewEdges, Touching;
    assert {f, e} == {e, f};
  }

  lemma BothOrdersSameGraph(s: Store, e: Event, f: Event)
    requires ShareDevice(s, e, f) && Coherent(s.graph)
    ensures SameGraph(Continued(s, [e, f]).graph, Continued(s, [f, e]).graph)
  {
    assert EventSet([e, f]) == {e, f} && EventSet([f, e]) == {e, f};
    assert NewTo(s, {e, f}) == {e, f};
    DistinctIds(e, f);
    FaithfulAnyway(s.graph.edges.Keys, {e, f});
    hide EdgeIdsFaithful, FaithfulBeyond, Continued, SameGraph, OnlyDevice, DeviceOf, TransactionOf, MerchantOf, Coherent;
    SameEventsSameGraph(s, [e, f], [f, e]);
  }

  lemma FaithfulAnyway(known: set<EdgeId>, events: set<Event>)
    requires EdgeIdsFaithful(events)
    ensures FaithfulBeyond(known, events)
  {
    hide EdgeFor, SeesEdge;
    assert FaithfulBeyond({}, events);
  }

  /** So once the search is cut short, two deliveries of the same two events are answered
      differently, although their graphs have the same nodes, edges and adjacency sets. */
  lemma TruncatedSearchDependsOnOrder(s: Store, e: Event, f: Event, ns: seq<EntityId>)
    requires ShareDevice(s, e, f) && Crowded(s.graph, DeviceOf(e), ns)
    ensures var g, h := Continued(s, [e, f]).graph, Continued(s, [f, e]).graph;
      && SameGraph(g, h)
      && NeighborsByHop(g, DeviceOf(e), None, 2, |ns| + 4).two == {MerchantOf(e)}
      && NeighborsByHop(h, DeviceOf(e), None, 2, |ns| + 4).two == {MerchantOf(f)}
      && MerchantOf(e) != MerchantOf(f)
  {
    AllApart(s, e, f);
    SwappedShareDevice(s, e, f);
    BothOrdersSameGraph(s, e, f);
    hide ShareDevice, Continued, DeviceOf, TransactionOf, MerchantOf, NeighborsByHop, SameGraph, OnlyDevice;
    FirstMerchantFound(s, e, f, ns);
    FirstMerchantFound(s, f, e, ns);
  }
}
