/** Payment events and the graph updates one event stands for. */
module EventUpdates {
  import opened Options
  import opened GraphModel
  import opened GraphLedger
  import opened EntityIds

  datatype Event = Event(
    eventId: string, eventType: string, transactionId: string, merchantId: string, timestamp: Time,
    accountToken: Option<string>, deviceToken: Option<string>, ipToken: Option<string>,
    instrumentToken: Option<string>, amount: Option<real>, currency: Option<string>)

  /** The raw value behind the node of each kind; an absent or empty token gives none. */
  function RawFor(e: Event, kind: EntityKind): Option<string> {
    match kind
    case Merchant => Some(e.merchantId)
    case Transaction => Some(e.transactionId)
    case Device => Present(e.deviceToken)
    case Ip => Present(e.ipToken)
    case Account => Present(e.accountToken)
    case PaymentInstrument => Present(e.instrumentToken)
    case Order => None
  }

  function Present(token: Option<string>): Option<string> {
    if token.Some? && token.value == "" then None else token
  }

  function NodeFor(e: Event, kind: EntityKind): Option<NodeVal> {
    var raw := RawFor(e, kind);
    if raw.None? then None
    else Some(NodeVal(MakeEntityId(kind, raw.value), kind, e.timestamp, e.timestamp, 0.0, 1))
  }

  /** The relationship written between the two ids of an edge id. */
  function Relationship(kind: EntityKind): string {
    match kind
    case Transaction => ":SEEN_ON_MERCHANT:"
    case Account => ":BELONGS_TO_ACCOUNT:"
    case Device => ":USES_DEVICE:"
    case Ip => ":USES_IP:"
    case PaymentInstrument => ":USES_PAYMENT_INSTRUMENT:"
    case _ => ""
  }

  /** The edge written together with the node of each kind: from the transaction to the
      merchant or token, except that an account points at its transaction. */
  function EdgeFor(e: Event, kind: EntityKind): Option<EdgeVal> {
    var node := NodeFor(e, kind);
    if node.None? || kind == Merchant then None
    else
      var t := MakeEntityId(Transaction, e.transactionId);
      var x := if kind == Transaction then MakeEntityId(Merchant, e.merchantId) else node.value.id;
      if kind == Account then Some(NewEdge(x.text + Relationship(kind) + t.text, x, t, e.timestamp))
      else Some(NewEdge(t.text + Relationship(kind) + x.text, t, x, e.timestamp))
  }

  function NewEdge(id: string, source: EntityId, target: EntityId, ts: Time): EdgeVal {
    EdgeVal(EdgeId(id), source, target, ts, ts, 1, 0, 0)
  }

  /** The updates made for one kind: its node, then its edge. */
  function Block(e: Event, kind: EntityKind): seq<Update> {
    var n, d := NodeFor(e, kind), EdgeFor(e, kind);
    (if n.Some? then [NodeUpdate(n.value)] else []) + (if d.Some? then [EdgeUpdate(d.value)] else [])
  }

  /** The order in which an event writes its kinds. */
  function KindAt(i: nat): EntityKind {
    if i == 0 then Merchant
    else if i == 1 then Transaction
    else if i == 2 then Device
    else if i == 3 then Ip
    else if i == 4 then Account
    else if i == 5 then PaymentInstrument
    else Order
  }

  function PlaceOf(kind: EntityKind): nat {
    match kind
    case Merchant => 0
    case Transaction => 1
    case Device => 2
    case Ip => 3
    case Account => 4
    case PaymentInstrument => 5
    case Order => 6
  }

  /** The first `n` blocks of an event. */
  function Blocks(e: Event, n: nat): seq<Update> {
    if n == 0 then [] else Blocks(e, n - 1) + Block(e, KindAt(n - 1))
  }

  function UpdatesOf(e: Event): seq<Update> { Blocks(e, 6) }

  // ----- each node and edge is touched at most once per event

  lemma NodeKindUnique(e: Event, k: EntityKind, f: Event, l: EntityKind)
    requires NodeFor(e, k).Some? && NodeFor(f, l).Some? && NodeFor(e, k).value.id == NodeFor(f, l).value.id
    ensures k == l
  {
    IdDeterminesKind(k, RawFor(e, k).value, l, RawFor(f, l).value);
  }

  lemma EdgeIdLetters(e: Event, k: EntityKind)
    requires EdgeFor(e, k).Some?
    ensures var id, n := EdgeFor(e, k).value.id.text, |MakeEntityId(Transaction, e.transactionId).text|;
      && |id| > 0 && (k == Account ==> id[0] == 'a')
      && (k != Account ==>
            && |id| > n + 6 && id[0] == 't'
            && id[n + 1] == Relationship(k)[1] && id[n + 6] == Relationship(k)[6])
  {
    IdCarriesPrefix(Transaction, e.transactionId);
    if k == Account {
      IdCarriesPrefix(Account, RawFor(e, k).value);
    }
  }

  predicate FromTransaction(kind: EntityKind) {
    kind == Transaction || kind == Device || kind == Ip || kind == PaymentInstrument
  }

  lemma RelationshipsDiffer(k: EntityKind, l: EntityKind)
    requires FromTransaction(k) && FromTransaction(l)
    requires Relationship(k)[1] == Relationship(l)[1] && Relationship(k)[6] == Relationship(l)[6]
    ensures k == l
  {
  }

  lemma EdgeKinds(e: Event, k: EntityKind)
    requires EdgeFor(e, k).Some?
    ensures k == Account || FromTransaction(k)
  {
  }

  /** The edge ids of one event differ: in the first letter or in the relationship name. */
  lemma EdgeKindUnique(e: Event, k: EntityKind, l: EntityKind)
    requires EdgeFor(e, k).Some? && EdgeFor(e, l).Some? && EdgeFor(e, k).value.id == EdgeFor(e, l).value.id
    ensures k == l
  {
    EdgeIdLetters(e, k);
    EdgeIdLetters(e, l);
    EdgeKinds(e, k);
    EdgeKinds(e, l);
    if k != Account && l != Account {
      RelationshipsDiffer(k, l);
    }
  }

  lemma NodeUpdatesAppend(a: seq<Update>, b: seq<Update>, x: EntityId)
    ensures NodeUpdatesOf(a + b, x) == NodeUpdatesOf(a, x) + NodeUpdatesOf(b, x)
    decreases |b|
  {
    if b == [] {
      assert a + b == a;
    } else {
      var n := |b| - 1;
      assert (a + b)[..|a + b| - 1] == a + b[..n];
      NodeUpdatesAppend(a, b[..n], x);
    }
  }

  lemma EdgeUpdatesAppend(a: seq<Update>, b: seq<Update>, k: EdgeId)
    ensures EdgeUpdatesOf(a + b, k) == EdgeUpdatesOf(a, k) + EdgeUpdatesOf(b, k)
    decreases |b|
  {
    if b == [] {
      assert a + b == a;
    } else {
      var n := |b| - 1;
      assert (a + b)[..|a + b| - 1] == a + b[..n];
      EdgeUpdatesAppend(a, b[..n], k);
    }
  }

  lemma {:induction false} ApplyAppend(g: Graph, a: seq<Update>, b: seq<Update>)
    ensures ApplyAll(g, a + b) == ApplyAll(ApplyAll(g, a), b)
    decreases |b|
  {
    if b == [] {
      assert a + b == a;
    } else {
      var n := |b| - 1;
      assert (a + b)[..|a + b| - 1] == a + b[..n];
      ApplyAppend(g, a, b[..n]);
    }
  }

  /** The update of `x` made by `e`, if `e` concerns `x`. */
  ghost predicate SeesNode(e: Event, k: EntityKind, x: EntityId) {
    NodeFor(e, k).Some? && NodeFor(e, k).value.id == x
  }

  ghost predicate SeesEdge(e: Event, k: EntityKind, x: EdgeId) {
    EdgeFor(e, k).Some? && EdgeFor(e, k).value.id == x
  }

  lemma BlockUpdates(e: Event, k: EntityKind, x: EntityId, d: EdgeId)
    ensures NodeUpdatesOf(Block(e, k), x) == if SeesNode(e, k, x) then [NodeFor(e, k).value] else []
    ensures EdgeUpdatesOf(Block(e, k), d) == if SeesEdge(e, k, d) then [EdgeFor(e, k).value] else []
  {
    var n, f := NodeFor(e, k), EdgeFor(e, k);
    if n.Some? {
      SingleUpdate(NodeUpdate(n.value), x, d);
      if f.Some? {
        NodeUpdatesAppend([NodeUpdate(n.value)], [EdgeUpdate(f.value)], x);
        EdgeUpdatesAppend([NodeUpdate(n.value)], [EdgeUpdate(f.value)], d);
        SingleUpdate(EdgeUpdate(f.value), x, d);
      } else {
        assert Block(e, k) == [NodeUpdate(n.value)];
      }
    } else {
      assert Block(e, k) == [];
    }
  }

  lemma SingleUpdate(u: Update, x: EntityId, d: EdgeId)
    ensures NodeUpdatesOf([u], x) == if u.NodeUpdate? && u.node.id == x then [u.node] else []
    ensures EdgeUpdatesOf([u], d) == if u.EdgeUpdate? && u.edge.id == d then [u.edge] else []
  {
    assert [u][..0] == [];
  }

  lemma PlaceInOrder(k: EntityKind, n: nat)
    requires 0 < n <= 6
    ensures PlaceOf(k) < n <==> PlaceOf(k) < n - 1 || KindAt(n - 1) == k
    ensures KindAt(n - 1) == k ==> PlaceOf(k) == n - 1
  {
  }

  lemma BlocksStep(e: Event, n: nat, x: EntityId, d: EdgeId)
    requires n > 0
    ensures NodeUpdatesOf(Blocks(e, n), x)
         == NodeUpdatesOf(Blocks(e, n - 1), x) + NodeUpdatesOf(Block(e, KindAt(n - 1)), x)
    ensures EdgeUpdatesOf(Blocks(e, n), d)
         == EdgeUpdatesOf(Blocks(e, n - 1), d) + EdgeUpdatesOf(Block(e, KindAt(n - 1)), d)
  {
    hide Block, KindAt, NodeUpdatesOf, EdgeUpdatesOf;
    NodeUpdatesAppend(Blocks(e, n - 1), Block(e, KindAt(n - 1)), x);
    EdgeUpdatesAppend(Blocks(e, n - 1), Block(e, KindAt(n - 1)), d);
  }

  lemma {:induction false} NodeTouchedOnce(e: Event, n: nat, k: EntityKind, x: EntityId)
    requires n <= 6 && SeesNode(e, k, x)
    ensures NodeUpdatesOf(Blocks(e, n), x) == if PlaceOf(k) < n then [NodeFor(e, k).value] else []
  {
    hide NodeFor, EdgeFor, Block;
    if n == 0 {
    } else {
      hide Blocks, KindAt, PlaceOf, NodeUpdatesOf;
      var l := KindAt(n - 1);
      NodeTouchedOnce(e, n - 1, k, x);
      var rest, mine := NodeUpdatesOf(Blocks(e, n - 1), x), NodeUpdatesOf(Block(e, l), x);
      BlocksStep(e, n, x, EdgeId(""));
      PlaceInOrder(k, n);
      if l == k {
        assert mine == [NodeFor(e, k).value] by { BlockUpdates(e, l, x, EdgeId("")); }
        assert rest == [] && rest + mine == mine;
      } else {
        assert mine == [] by {
          BlockUpdates(e, l, x, EdgeId(""));
          if SeesNode(e, l, x) { NodeKindUnique(e, k, e, l); }
        }
        assert rest + mine == rest;
      }
    }
  }

  lemma {:induction false} NodeUntouched(e: Event, n: nat, x: EntityId)
    requires forall k :: !SeesNode(e, k, x)
    ensures NodeUpdatesOf(Blocks(e, n), x) == []
  {
    if n == 0 {
    } else {
      NodeUntouched(e, n - 1, x);
      BlockUpdates(e, KindAt(n - 1), x, EdgeId(""));
      BlocksStep(e, n, x, EdgeId(""));
    }
  }

  lemma {:induction false} EdgeTouchedOnce(e: Event, n: nat, k: EntityKind, d: EdgeId)
    requires n <= 6 && SeesEdge(e, k, d)
    ensures EdgeUpdatesOf(Blocks(e, n), d) == if PlaceOf(k) < n then [EdgeFor(e, k).value] else []
  {
    hide NodeFor, EdgeFor, Block;
    if n == 0 {
    } else {
      hide Blocks, KindAt, PlaceOf, EdgeUpdatesOf;
      var l := KindAt(n - 1);
      EdgeTouchedOnce(e, n - 1, k, d);
      var rest, mine := EdgeUpdatesOf(Blocks(e, n - 1), d), EdgeUpdatesOf(Block(e, l), d);
      BlocksStep(e, n, EntityId(""), d);
      PlaceInOrder(k, n);
      if l == k {
        assert mine == [EdgeFor(e, k).value] by { BlockUpdates(e, l, EntityId(""), d); }
        assert rest == [] && rest + mine == mine;
      } else {
        assert mine == [] by {
          BlockUpdates(e, l, EntityId(""), d);
          if SeesEdge(e, l, d) { EdgeKindUnique(e, k, l); }
        }
        assert rest + mine == rest;
      }
    }
  }

  lemma {:induction false} EdgeUntouched(e: Event, n: nat, d: EdgeId)
    requires forall k :: !SeesEdge(e, k, d)
    ensures EdgeUpdatesOf(Blocks(e, n), d) == []
  {
    if n == 0 {
    } else {
      EdgeUntouched(e, n - 1, d);
      BlockUpdates(e, KindAt(n - 1), EntityId(""), d);
      BlocksStep(e, n, EntityId(""), d);
    }
  }

  /** One event adds exactly one sighting to every node it names, and none to the others. */
  lemma EventTouchesNode(e: Event, k: EntityKind, x: EntityId)
    ensures SeesNode(e, k, x) ==> NodeUpdatesOf(UpdatesOf(e), x) == [NodeFor(e, k).value]
    ensures (forall l :: !SeesNode(e, l, x)) ==> NodeUpdatesOf(UpdatesOf(e), x) == []
  {
    if SeesNode(e, k, x) {
      NodeTouchedOnce(e, 6, k, x);
    }
    if forall l :: !SeesNode(e, l, x) {
      NodeUntouched(e, 6, x);
    }
  }

  /** The same for edges. */
  lemma EventTouchesEdge(e: Event, k: EntityKind, d: EdgeId)
    ensures SeesEdge(e, k, d) ==> EdgeUpdatesOf(UpdatesOf(e), d) == [EdgeFor(e, k).value]
    ensures (forall l :: !SeesEdge(e, l, d)) ==> EdgeUpdatesOf(UpdatesOf(e), d) == []
  {
    if SeesEdge(e, k, d) {
      EdgeTouchedOnce(e, 6, k, d);
    }
    if forall l :: !SeesEdge(e, l, d) {
      EdgeUntouched(e, 6, d);
    }
  }
}
