/** What one new event leaves in the graph, told by its own fields, and what a search around
    it finds at the moment it is dated. */
module IngestedEvent {
  import opened Options
  import opened GraphModel
  import opened EntityIds
  import opened EventUpdates
  import opened IngestionOrder
  import opened Traversal
  import opened CutSearch
  import opened CutOrder

  // ----- the ids and links of an event

  /** `x` is the id of a token the event carries; an empty token counts as none. */
  predicate TokenId(token: Option<string>, kind: EntityKind, x: EntityId) {
    token.Some? && token.value != "" && x == MakeEntityId(kind, token.value)
  }

  predicate IsMerchant(e: Event, x: EntityId) { x == MakeEntityId(Merchant, e.merchantId) }
  predicate IsTransaction(e: Event, x: EntityId) { x == MakeEntityId(Transaction, e.transactionId) }
  predicate IsDevice(e: Event, x: EntityId) { TokenId(e.deviceToken, Device, x) }
  predicate IsIp(e: Event, x: EntityId) { TokenId(e.ipToken, Ip, x) }
  predicate IsAccount(e: Event, x: EntityId) { TokenId(e.accountToken, Account, x) }
  predicate IsInstrument(e: Event, x: EntityId) { TokenId(e.instrumentToken, PaymentInstrument, x) }

  predicate Named(e: Event, x: EntityId) {
    IsMerchant(e, x) || IsTransaction(e, x) || IsDevice(e, x) || IsIp(e, x) || IsAccount(e, x) || IsInstrument(e, x)
  }

  /** The event links `source` to `target` by the edge `k`: its transaction to the merchant, the
      device, the address and the instrument, and the account to the transaction. */
  predicate Links(e: Event, k: EdgeId, source: EntityId, target: EntityId) {
    || (IsTransaction(e, source) && IsMerchant(e, target) && k.text == source.text + ":SEEN_ON_MERCHANT:" + target.text)
    || (IsTransaction(e, source) && IsDevice(e, target) && k.text == source.text + ":USES_DEVICE:" + target.text)
    || (IsTransaction(e, source) && IsIp(e, target) && k.text == source.text + ":USES_IP:" + target.text)
    || (IsAccount(e, source) && IsTransaction(e, target) && k.text == source.text + ":BELONGS_TO_ACCOUNT:" + target.text)
    || (IsTransaction(e, source) && IsInstrument(e, target)
        && k.text == source.text + ":USES_PAYMENT_INSTRUMENT:" + target.text)
  }

  // ----- one sighting

  function Least(a: Time, b: Time): Time { if a <= b then a else b }
  function Greatest(a: Time, b: Time): Time { if a <= b then b else a }

  /** `x` is a node seen once more, at `t`; a new one is of the given kind and has no score. */
  ghost predicate Sighted(g: Graph, h: Graph, x: EntityId, kind: EntityKind, t: Time) {
    && x in h.nodes
    && h.nodes[x] ==
       if x !in g.nodes then NodeVal(x, kind, t, t, 0.0, 1)
       else
         var n := g.nodes[x];
         NodeVal(n.id, n.kind, Least(n.first, t), Greatest(n.last, t), if n.risk < 0.0 then 0.0 else n.risk, n.count + 1)
  }

  /** `k` is an edge seen once more, at `t`; a new one has these ends and no outcomes. */
  ghost predicate Linking(g: Graph, h: Graph, k: EdgeId, source: EntityId, target: EntityId, t: Time) {
    && k in h.edges
    && h.edges[k] ==
       if k !in g.edges then EdgeVal(k, source, target, t, t, 1, 0, 0)
       else
         var v := g.edges[k];
         EdgeVal(v.id, v.source, v.target, Least(v.first, t), Greatest(v.last, t), v.count + 1, v.successes, v.failures)
  }

  // ----- in terms of the updates

  lemma NamedMeans(e: Event, x: EntityId)
    ensures IsMerchant(e, x) <==> SeesNode(e, Merchant, x)
    ensures IsTransaction(e, x) <==> SeesNode(e, Transaction, x)
    ensures IsDevice(e, x) <==> SeesNode(e, Device, x)
    ensures IsIp(e, x) <==> SeesNode(e, Ip, x)
    ensures IsAccount(e, x) <==> SeesNode(e, Account, x)
    ensures IsInstrument(e, x) <==> SeesNode(e, PaymentInstrument, x)
    ensures !SeesNode(e, Order, x)
  {
    hide MakeEntityId;
  }

  lemma NamedIsSeen(e: Event, x: EntityId)
    ensures Named(e, x) <==> NamesNode(e, x)
  {
    NamedMeans(e, x);
    hide SeesNode;
    if k :| SeesNode(e, k, x) {
      match k
      case Merchant =>
      case Transaction =>
      case Device =>
      case Ip =>
      case Account =>
      case PaymentInstrument =>
      case Order =>
    }
  }

  lemma SightedOnce(g: Graph, e: Event, k: EntityKind, x: EntityId)
    requires SeesNode(e, k, x)
    ensures Sighted(g, ApplyAll(g, UpdatesOf(e)), x, k, e.timestamp)
  {
    EventTouchesNode(e, k, x);
    NodeEffect(g, UpdatesOf(e), x);
    hide UpdatesOf, ApplyAll;
  }

  /** The nodes: merchant and transaction always, and each token the event carries under its own
      kind, are sighted once; no other node changes. */
  lemma NodesWritten(s: Store, e: Event, x: EntityId)
    requires e.eventId !in s.byId
    ensures var g, h := s.graph, Processed(s, e).graph;
      && (IsMerchant(e, x) ==> Sighted(g, h, x, Merchant, e.timestamp))
      && (IsTransaction(e, x) ==> Sighted(g, h, x, Transaction, e.timestamp))
      && (IsDevice(e, x) ==> Sighted(g, h, x, Device, e.timestamp))
      && (IsIp(e, x) ==> Sighted(g, h, x, Ip, e.timestamp))
      && (IsAccount(e, x) ==> Sighted(g, h, x, Account, e.timestamp))
      && (IsInstrument(e, x) ==> Sighted(g, h, x, PaymentInstrument, e.timestamp))
      && (!Named(e, x) ==> (x in h.nodes <==> x in g.nodes) && (x in g.nodes ==> h.nodes[x] == g.nodes[x]))
  {
    var g := s.graph;
    NamedMeans(e, x);
    NamedIsSeen(e, x);
    hide Sighted, ApplyAll, UpdatesOf, Named, IsMerchant, IsTransaction, IsDevice, IsIp, IsAccount, IsInstrument;
    if k :| SeesNode(e, k, x) {
      forall l | SeesNode(e, l, x) ensures Sighted(g, ApplyAll(g, UpdatesOf(e)), x, l, e.timestamp) {
        SightedOnce(g, e, l, x);
      }
    } else {
      EventTouchesNode(e, Merchant, x);
      NodeEffect(g, UpdatesOf(e), x);
    }
  }

  // ----- edges

  lemma LinkOfKind(e: Event, kind: EntityKind, k: EdgeId, source: EntityId, target: EntityId)
    ensures SeesEdge(e, kind, k) && EdgeFor(e, kind).value.source == source && EdgeFor(e, kind).value.target == target
            ==> Links(e, k, source, target)
  {
    hide MakeEntityId;
  }

  lemma KindOfLink(e: Event, k: EdgeId, source: EntityId, target: EntityId) returns (kind: EntityKind)
    requires Links(e, k, source, target)
    ensures SeesEdge(e, kind, k) && EdgeFor(e, kind).value.source == source && EdgeFor(e, kind).value.target == target
    ensures EdgeFor(e, kind).value == EdgeVal(k, source, target, e.timestamp, e.timestamp, 1, 0, 0)
  {
    hide MakeEntityId;
    assert EdgeId(k.text) == k;
    if IsTransaction(e, source) && IsMerchant(e, target) && k.text == source.text + ":SEEN_ON_MERCHANT:" + target.text {
      kind := Transaction;
    } else if IsTransaction(e, source) && IsDevice(e, target) && k.text == source.text + ":USES_DEVICE:" + target.text {
      kind := Device;
    } else if IsTransaction(e, source) && IsIp(e, target) && k.text == source.text + ":USES_IP:" + target.text {
      kind := Ip;
    } else if IsAccount(e, source) && IsTransaction(e, target)
              && k.text == source.text + ":BELONGS_TO_ACCOUNT:" + target.text {
      kind := Account;
    } else {
      kind := PaymentInstrument;
    }
  }

  /** The edges: each link of the event is sighted once, under the id and in the direction its
      relationship has; no other edge changes. */
  lemma EdgesWritten(s: Store, e: Event, k: EdgeId)
    requires e.eventId !in s.byId
    ensures var g, h := s.graph, Processed(s, e).graph;
      && (forall source, target | Links(e, k, source, target) :: Linking(g, h, k, source, target, e.timestamp))
      && ((forall source, target :: !Links(e, k, source, target)) ==>
            (k in h.edges <==> k in g.edges) && (k in g.edges ==> h.edges[k] == g.edges[k]))
  {
    var g := s.graph;
    hide Links, Linking, ApplyAll, UpdatesOf, EdgeFor;
    forall source, target | Links(e, k, source, target)
      ensures Linking(g, ApplyAll(g, UpdatesOf(e)), k, source, target, e.timestamp)
    {
      LinkedOnce(g, e, k, source, target);
    }
    if forall source, target :: !Links(e, k, source, target) {
      forall l ensures !SeesEdge(e, l, k) {
        if SeesEdge(e, l, k) {
          LinkOfKind(e, l, k, EdgeFor(e, l).value.source, EdgeFor(e, l).value.target);
        }
      }
      EventTouchesEdge(e, Merchant, k);
      EdgeEffect(g, UpdatesOf(e), k);
    }
  }

  lemma LinkedOnce(g: Graph, e: Event, k: EdgeId, source: EntityId, target: EntityId)
    requires Links(e, k, source, target)
    ensures Linking(g, ApplyAll(g, UpdatesOf(e)), k, source, target, e.timestamp)
  {
    var kind := KindOfLink(e, k, source, target);
    EventTouchesEdge(e, kind, k);
    EdgeEffect(g, UpdatesOf(e), k);
    hide UpdatesOf, ApplyAll, Links, EdgeFor;
  }

  // ----- what is found at the moment of the event

  /** Edges the graph knows already have the ends the event gives them. */
  ghost predicate EndsAgree(g: Graph, e: Event) {
    forall k, source, target | Links(e, k, source, target) && k in g.edges ::
      g.edges[k].source == source && g.edges[k].target == target
  }

  lemma LinkIsSeen(s: Store, e: Event, k: EdgeId, source: EntityId, target: EntityId)
    requires e.eventId !in s.byId && Links(e, k, source, target) && EndsAgree(s.graph, e)
    ensures Linked(Processed(s, e).graph, Some(e.timestamp), source, target)
    ensures Linked(Processed(s, e).graph, Some(e.timestamp), target, source)
  {
    EdgesWritten(s, e, k);
    hide Processed, Links;
    var h := Processed(s, e).graph;
    assert Linking(s.graph, h, k, source, target, e.timestamp);
    assert k in h.edges && VisibleAt(h.edges[k], Some(e.timestamp)) && Joins(h.edges[k], source, target)
      && Joins(h.edges[k], target, source);
  }

  /** The merchant, or a token the event carries. */
  predicate Counterpart(e: Event, v: EntityId) {
    IsMerchant(e, v) || IsDevice(e, v) || IsIp(e, v) || IsAccount(e, v) || IsInstrument(e, v)
  }

  lemma LinkOf(e: Event, v: EntityId) returns (k: EdgeId, source: EntityId, target: EntityId)
    requires Counterpart(e, v)
    ensures Links(e, k, source, target)
    ensures var t := MakeEntityId(Transaction, e.transactionId); (source == t && target == v) || (source == v && target == t)
  {
    hide MakeEntityId;
    var t := MakeEntityId(Transaction, e.transactionId);
    source, target := t, v;
    if IsMerchant(e, v) {
      k := EdgeId(t.text + ":SEEN_ON_MERCHANT:" + v.text);
    } else if IsDevice(e, v) {
      k := EdgeId(t.text + ":USES_DEVICE:" + v.text);
    } else if IsIp(e, v) {
      k := EdgeId(t.text + ":USES_IP:" + v.text);
    } else if IsAccount(e, v) {
      source, target, k := v, t, EdgeId(v.text + ":BELONGS_TO_ACCOUNT:" + t.text);
    } else {
      k := EdgeId(t.text + ":USES_PAYMENT_INSTRUMENT:" + v.text);
    }
  }

  /** No id is of two kinds. */
  lemma KindsApart(e: Event, x: EntityId)
    ensures IsTransaction(e, x) ==> !Counterpart(e, x)
    ensures IsDevice(e, x) ==> !IsMerchant(e, x) && !IsIp(e, x) && !IsAccount(e, x) && !IsInstrument(e, x)
  {
    hide MakeEntityId;
    forall k, a, l, b | x == MakeEntityId(k, a) == MakeEntityId(l, b) ensures k == l {
      IdDeterminesKind(k, a, l, b);
    }
  }

  lemma StaysCoherent(s: Store, e: Event)
    requires Coherent(s.graph)
    ensures Coherent(Processed(s, e).graph)
  {
    hide Coherent, UpdatesOf;
    RunKeepsCoherent(s.graph, UpdatesOf(e));
  }

  lemma TransactionIsNode(s: Store, e: Event, t: EntityId)
    requires e.eventId !in s.byId && IsTransaction(e, t)
    ensures t in Processed(s, e).graph.nodes
  {
    NodesWritten(s, e, t);
  }

  /** As of the moment of the event, its transaction has the merchant and every token the event
      carries at hop 1. */
  lemma TransactionSeesCounterparts(s: Store, e: Event, v: EntityId, maxNodes: int)
    requires Coherent(s.graph) && e.eventId !in s.byId && EndsAgree(s.graph, e) && maxNodes >= 2 && Counterpart(e, v)
    ensures var t := MakeEntityId(Transaction, e.transactionId);
      v in NeighborsByHop(Processed(s, e).graph, t, Some(e.timestamp), 2, maxNodes).one
  {
    var t := MakeEntityId(Transaction, e.transactionId);
    assert IsTransaction(e, t);
    hide *;
    var k, source, target := LinkOf(e, v);
    LinkIsSeen(s, e, k, source, target);
    KindsApart(e, t);
    TransactionIsNode(s, e, t);
    StaysCoherent(s, e);
    LinkedIsHopOne(Processed(s, e).graph, t, Some(e.timestamp), 2, maxNodes, v);
  }

  // ----- the first payment of a device

  /** No edge ends in `x`. */
  ghost predicate Unlinked(g: Graph, x: EntityId) {
    forall k | k in g.edges :: g.edges[k].source != x && g.edges[k].target != x
  }

  /** An edge at an id that had none before is one of the event's links. */
  lemma NewEdgeIsLink(s: Store, e: Event, k: EdgeId, x: EntityId) returns (source: EntityId, target: EntityId)
    requires e.eventId !in s.byId && Unlinked(s.graph, x) && k in Processed(s, e).graph.edges
    requires var v := Processed(s, e).graph.edges[k]; v.source == x || v.target == x
    ensures Links(e, k, source, target)
    ensures var v := Processed(s, e).graph.edges[k]; v.source == source && v.target == target
  {
    EdgesWritten(s, e, k);
    hide Links, Processed;
    var h := Processed(s, e).graph;
    if forall a, b :: !Links(e, k, a, b) {
      assert false;
    }
    source, target :| Links(e, k, source, target);
    assert Linking(s.graph, h, k, source, target, e.timestamp);
  }

  lemma LinkedAfter(s: Store, e: Event, x: EntityId, v: EntityId) returns (k: EdgeId, source: EntityId, target: EntityId)
    requires e.eventId !in s.byId && Unlinked(s.graph, x) && Linked(Processed(s, e).graph, Some(e.timestamp), x, v)
    ensures Links(e, k, source, target) && ((source == x && target == v) || (source == v && target == x))
  {
    var h := Processed(s, e).graph;
    hide Links, Processed, Unlinked;
    k :| k in h.edges && VisibleAt(h.edges[k], Some(e.timestamp)) && Joins(h.edges[k], x, v);
    source, target := NewEdgeIsLink(s, e, k, x);
  }

  lemma DeviceLinksTransaction(e: Event, k: EdgeId, source: EntityId, target: EntityId, d: EntityId)
    requires Links(e, k, source, target) && IsDevice(e, d) && (source == d || target == d)
    ensures IsTransaction(e, if source == d then target else source)
  {
    KindsApart(e, d);
    TransactionOrCounterpart(e, d);
    hide MakeEntityId;
  }

  lemma TransactionOrCounterpart(e: Event, x: EntityId)
    ensures IsTransaction(e, x) ==> !IsMerchant(e, x) && !IsDevice(e, x) && !IsIp(e, x) && !IsAccount(e, x) && !IsInstrument(e, x)
  {
    KindsApart(e, x);
  }

  lemma TransactionLinksCounterpart(e: Event, k: EdgeId, source: EntityId, target: EntityId, t: EntityId)
    requires Links(e, k, source, target) && IsTransaction(e, t) && (source == t || target == t)
    ensures Counterpart(e, if source == t then target else source)
  {
    TransactionOrCounterpart(e, t);
    hide MakeEntityId;
  }

  lemma AroundNewDevice(s: Store, e: Event, d: EntityId, v: EntityId)
    requires Coherent(s.graph) && e.eventId !in s.byId && EndsAgree(s.graph, e) && IsDevice(e, d)
    requires Unlinked(s.graph, d)
    ensures v in Neighbors(Processed(s, e).graph, d, Some(e.timestamp)) <==> IsTransaction(e, v)
  {
    hide *;
    var h := Processed(s, e).graph;
    StaysCoherent(s, e);
    NeighborsAreLinked(h, d, v, Some(e.timestamp));
    if Linked(h, Some(e.timestamp), d, v) {
      var k, source, target := LinkedAfter(s, e, d, v);
      DeviceLinksTransaction(e, k, source, target, d);
    }
    IsCounterpart(e, d);
    var k, source, target := LinkOf(e, d);
    LinkIsSeen(s, e, k, source, target);
    OneTransaction(e, v);
  }

  lemma IsCounterpart(e: Event, d: EntityId)
    requires IsDevice(e, d)
    ensures Counterpart(e, d)
  {
  }

  lemma OneTransaction(e: Event, v: EntityId)
    ensures IsTransaction(e, v) <==> v == MakeEntityId(Transaction, e.transactionId)
  {
  }

  lemma AroundNewTransaction(s: Store, e: Event, v: EntityId)
    requires var t := MakeEntityId(Transaction, e.transactionId);
      Coherent(s.graph) && e.eventId !in s.byId && EndsAgree(s.graph, e) && Unlinked(s.graph, t)
    ensures var t := MakeEntityId(Transaction, e.transactionId);
      v in Neighbors(Processed(s, e).graph, t, Some(e.timestamp)) <==> Counterpart(e, v)
  {
    hide *;
    var h, t := Processed(s, e).graph, MakeEntityId(Transaction, e.transactionId);
    OneTransaction(e, t);
    StaysCoherent(s, e);
    NeighborsAreLinked(h, t, v, Some(e.timestamp));
    if Linked(h, Some(e.timestamp), t, v) {
      var k, source, target := LinkedAfter(s, e, t, v);
      TransactionLinksCounterpart(e, k, source, target, t);
    }
    if Counterpart(e, v) {
      var k, source, target := LinkOf(e, v);
      LinkIsSeen(s, e, k, source, target);
    }
  }

  /** `d` is only ever found with `t`, which is found with `others`: hop 1 and hop 2 around `d`. */
  lemma HopsThroughOne(g: Graph, d: EntityId, t: EntityId, asOf: Option<Time>, maxNodes: int)
    requires d in g.nodes && d != t && maxNodes >= 3
    requires forall v :: v in Neighbors(g, d, asOf) <==> v == t
    ensures var hops := NeighborsByHop(g, d, asOf, 2, maxNodes);
      && hops.one == {t}
      && forall v :: v in hops.two <==> v in Neighbors(g, t, asOf) && v != d && v != t
  {
    hide *;
    HopTwoExactly(g, d, asOf, maxNodes);
    RingOfTwo(g, d, t, asOf);
    FoundByOne(g, d, asOf, {}, Neighbors(g, d, asOf), t, maxNodes - 2);
    forall v ensures v in NewFrom(g, d, asOf, t) <==> v in Neighbors(g, t, asOf) && v != d && v != t {
      NewThrough(g, d, t, asOf, v);
    }
  }

  lemma RingOfTwo(g: Graph, d: EntityId, t: EntityId, asOf: Option<Time>)
    requires d != t && forall v :: v in Neighbors(g, d, asOf) <==> v == t
    ensures Ring(g, d, asOf) == {d, t} && |Ring(g, d, asOf)| == 2 && Neighbors(g, d, asOf) != []
  {
    hide Neighbors;
    assert t in Neighbors(g, d, asOf);
    assert Ring(g, d, asOf) == {d, t};
  }

  lemma NewThrough(g: Graph, d: EntityId, t: EntityId, asOf: Option<Time>, v: EntityId)
    requires d != t && Ring(g, d, asOf) == {d, t}
    ensures v in NewFrom(g, d, asOf, t) <==> v in Neighbors(g, t, asOf) && v != d && v != t
  {
    hide Neighbors, Ring;
  }

  /** As of the moment of the first payment of a device: hop 1 around the device is the
      transaction, hop 2 the merchant and every other token of the event. */
  lemma FirstPaymentOfDevice(s: Store, e: Event, d: EntityId, maxNodes: int)
    requires Coherent(s.graph) && e.eventId !in s.byId && EndsAgree(s.graph, e) && maxNodes >= 3
    requires IsDevice(e, d) && Unlinked(s.graph, d) && Unlinked(s.graph, MakeEntityId(Transaction, e.transactionId))
    ensures var hops := NeighborsByHop(Processed(s, e).graph, d, Some(e.timestamp), 2, maxNodes);
      && hops.one == {MakeEntityId(Transaction, e.transactionId)}
      && forall v :: v in hops.two <==> IsMerchant(e, v) || IsIp(e, v) || IsAccount(e, v) || IsInstrument(e, v)
  {
    hide *;
    var h, t := Processed(s, e).graph, MakeEntityId(Transaction, e.transactionId);
    DeviceIsNode(s, e, d);
    IsCounterpart(e, d);
    OneTransaction(e, d);
    KindsApart(e, d);
    forall v ensures v in Neighbors(h, d, Some(e.timestamp)) <==> v == t {
      AroundNewDevice(s, e, d, v);
      OneTransaction(e, v);
    }
    HopsThroughOne(h, d, t, Some(e.timestamp), maxNodes);
    forall v ensures v in NeighborsByHop(h, d, Some(e.timestamp), 2, maxNodes).two <==>
                     IsMerchant(e, v) || IsIp(e, v) || IsAccount(e, v) || IsInstrument(e, v) {
      AroundNewTransaction(s, e, v);
      OthersThan(e, d, v);
      OneTransaction(e, v);
      KindsApart(e, v);
    }
  }

  lemma DeviceIsNode(s: Store, e: Event, d: EntityId)
    requires e.eventId !in s.byId && IsDevice(e, d)
    ensures d in Processed(s, e).graph.nodes
  {
    NodesWritten(s, e, d);
  }

  lemma OthersThan(e: Event, d: EntityId, v: EntityId)
    requires IsDevice(e, d)
    ensures IsMerchant(e, v) || IsIp(e, v) || IsAccount(e, v) || IsInstrument(e, v) <==> Counterpart(e, v) && v != d
  {
    KindsApart(e, v);
    KindsApart(e, d);
    hide MakeEntityId;
  }
}
