/** The same two events, delivered in two orders into one store, and two scores. */
module OrderedScores {
  import opened Options
  import opened Numeric
  import opened PyStrings
  import opened GraphModel
  import opened SetSums
  import opened Traversal
  import opened EventUpdates
  import opened IngestionOrder
  import opened CrossMerchantRisk
  import opened IngestedScores
  import opened TruncatedOrder

  /** No outcome anywhere, and a base score only on `m`. */
  ghost predicate OnlySuspect(g: Graph, m: EntityId) {
    && WithoutOutcomes(g) && m in g.nodes && g.nodes[m].risk == 0.8
    && forall x | x in g.nodes && x != m :: g.nodes[x].risk == 0.0
  }

  lemma UpdateKeepsSuspect(g: Graph, u: Update, m: EntityId)
    requires OnlySuspect(g, m) && BareUpdate(u)
    ensures OnlySuspect(Apply(g, u), m)
  {
    UpdateKeepsBare(g, u);
    hide WithoutOutcomes, OfKind;
  }

  lemma {:induction false} RunKeepsSuspect(g: Graph, us: seq<Update>, m: EntityId)
    requires OnlySuspect(g, m) && BareUpdates(us)
    ensures OnlySuspect(ApplyAll(g, us), m)
  {
    hide OnlySuspect, BareUpdate, Apply;
    if us == [] {
    } else {
      RunKeepsSuspect(g, us[..|us| - 1], m);
      UpdateKeepsSuspect(ApplyAll(g, us[..|us| - 1]), us[|us| - 1], m);
    }
  }

  lemma {:induction false} DeliveriesKeepSuspect(s: Store, es: seq<Event>, m: EntityId)
    requires OnlySuspect(s.graph, m)
    ensures OnlySuspect(Continued(s, es).graph, m)
  {
    hide OnlySuspect, UpdatesOf, ApplyAll, BareUpdates;
    if es == [] {
    } else {
      var before, e := Continued(s, es[..|es| - 1]), es[|es| - 1];
      DeliveriesKeepSuspect(s, es[..|es| - 1], m);
      if e.eventId !in before.byId {
        UpdatesBare(e);
        RunKeepsSuspect(before.graph, UpdatesOf(e), m);
      }
    }
  }

  /** What a suspect two hops away passes on, and nobody else does. */
  lemma SuspectPasses(g: Graph, m: EntityId, one: set<EntityId>, two: set<EntityId>)
    requires OnlySuspect(g, m) && m !in one
    ensures Sum(one, OneHopShare(g, None)) == 0
    ensures two == {m} ==> Sum(two, TwoHopShare(g, None)) == 2000
    ensures m !in two ==> Sum(two, TwoHopShare(g, None)) == 0
  {
    hide WithoutOutcomes;
    forall v | v != m ensures OneHopShare(g, None)(v) == 0 && TwoHopShare(g, None)(v) == 0 {
    }
    SumZero(one, OneHopShare(g, None));
    if m !in two {
      SumZero(two, TwoHopShare(g, None));
    }
    if two == {m} {
      assert TwoHopShare(g, None)(m) == 2000 by { RoundOfInteger(2000); }
      SumRemove(two, TwoHopShare(g, None), m);
      assert {m} - {m} == {};
    }
  }

  /** The score of an unscored entity with the suspect at hop 2 or not at all. */
  lemma ScoreBySuspect(g: Graph, x: EntityId, m: EntityId, sigma: real -> real)
    requires Coherent(g) && OnlySuspect(g, m) && x in g.nodes && x != m
    requires m !in NeighborsByHop(g, x, None, 2, MAX_NODES).one
    ensures NeighborsByHop(g, x, None, 2, MAX_NODES).two == {m} ==> AssessedScore(g, x, None, sigma) == 2000
    ensures m !in NeighborsByHop(g, x, None, 2, MAX_NODES).two ==> AssessedScore(g, x, None, sigma) == 0
  {
    var hops := NeighborsByHop(g, x, None, 2, MAX_NODES);
    assert NodeAsOf(g, x, None).Some? && g.nodes[x].risk <= 0.0 && WithoutOutcomes(g);
    OnlyPropagation(g, x, None, sigma);
    SuspectPasses(g, m, hops.one, hops.two);
    hide AssessedScore, Coherent, OnlySuspect, NeighborsByHop, Sum;
  }

  /** A device with 196 known transactions that lead nowhere else, one suspect merchant in the
      graph, and two new events on the device, one at this merchant: under the bound of 200 the
      device scores 0.2 if that event comes first and nothing if it comes second. */
  lemma ScoreDependsOnOrder(s: Store, e: Event, f: Event, ns: seq<EntityId>, sigma: real -> real)
    requires ShareDevice(s, e, f) && Crowded(s.graph, DeviceOf(e), ns) && |ns| + 4 == MAX_NODES
    requires OnlySuspect(s.graph, MerchantOf(e))
    ensures AssessedScore(Continued(s, [e, f]).graph, DeviceOf(e), None, sigma) == 2000
    ensures AssessedScore(Continued(s, [f, e]).graph, DeviceOf(e), None, sigma) == 0
  {
    hide *;
    AllApart(s, e, f);
    SwappedShareDevice(s, e, f);
    CrowdedMeans(s.graph, DeviceOf(e), ns);
    NewcomersApart(s, e, f, ns);
    AroundDevice(s, e, f);
    AroundDevice(s, f, e);
    FirstMerchantFound(s, e, f, ns);
    FirstMerchantFound(s, f, e, ns);
    DeliveriesKeepSuspect(s, [e, f], MerchantOf(e));
    DeliveriesKeepSuspect(s, [f, e], MerchantOf(e));
    assert MerchantOf(e) !in (set v | v in ns) + {TransactionOf(e), TransactionOf(f)} by {
      assert MerchantOf(e) !in ns + [TransactionOf(e), TransactionOf(f)];
    }
    ScoreBySuspect(Continued(s, [e, f]).graph, DeviceOf(e), MerchantOf(e), sigma);
    ScoreBySuspect(Continued(s, [f, e]).graph, DeviceOf(e), MerchantOf(e), sigma);
  }

  // ----- such a store and such events

  function Repeat(n: nat): string { seq(n, _ => 'o') }

  const DeviceId := EntityId("dev_d")
  const SuspectId := EntityId("merch_p")

  function OldTransaction(i: nat): EntityId { EntityId("txn_" + Repeat(i)) }

  function OldEdge(i: nat): EdgeVal {
    EdgeVal(EdgeId(Repeat(i)), OldTransaction(i), DeviceId, 0, 0, 1, 0, 0)
  }

  /** The device, the suspect merchant and `n` transactions on the device. */
  function Crowd(n: nat): Graph {
    if n == 0 then
      AddNode(AddNode(EMPTY, NodeVal(DeviceId, Device, 0, 0, 0.0, 1)), NodeVal(SuspectId, Merchant, 0, 0, 0.8, 1))
    else AddEdge(Crowd(n - 1), OldEdge(n - 1))
  }

  function OldIds(n: nat): seq<EdgeId> { seq(n, i requires i >= 0 => OldEdge(i).id) }

  function OldTransactions(n: nat): seq<EntityId> { seq(n, i requires i >= 0 => OldTransaction(i)) }

  lemma OldOnesDiffer(i: nat, j: nat)
    requires i != j
    ensures OldEdge(i).id != OldEdge(j).id && OldTransaction(i) != OldTransaction(j)
  {
    assert |Repeat(i)| != |Repeat(j)|;
    assert |"txn_" + Repeat(i)| != |"txn_" + Repeat(j)|;
  }

  lemma OldIsNoDevice(i: nat)
    ensures OldTransaction(i) != DeviceId && OldTransaction(i) != SuspectId
  {
    assert OldTransaction(i).text[0] == 't';
    assert DeviceId.text[0] == 'd' && SuspectId.text[0] == 'm';
  }

  lemma EmptyCrowd()
    ensures Coherent(Crowd(0)) && OnlySuspect(Crowd(0), SuspectId) && DeviceId in Crowd(0).nodes
    ensures Crowd(0).edges == map[] && Crowd(0).outgoing == map[] && Crowd(0).incoming == map[]
  {
    assert DeviceId.text[0] == 'd' && SuspectId.text[0] == 'm';
    var d, m := NodeVal(DeviceId, Device, 0, 0, 0.0, 1), NodeVal(SuspectId, Merchant, 0, 0, 0.8, 1);
    ApplyKeepsCoherent(EMPTY, NodeUpdate(d));
    ApplyKeepsCoherent(AddNode(EMPTY, d), NodeUpdate(m));
  }

  function OldOut(n: nat, x: EntityId): seq<EdgeId> {
    if n == 0 then [] else OldOut(n - 1, x) + Entry(x, OldTransaction(n - 1), OldEdge(n - 1).id)
  }

  function OldIn(n: nat, x: EntityId): seq<EdgeId> {
    if n == 0 then [] else OldIn(n - 1, x) + Entry(x, DeviceId, OldEdge(n - 1).id)
  }

  ghost predicate OldEdges(g: Graph, n: nat) {
    && (forall k :: k in g.edges <==> k in OldIds(n))
    && (forall i: nat | i < n :: OldEdge(i).id in g.edges && g.edges[OldEdge(i).id] == OldEdge(i))
  }

  /** Which edges there are, and the lists of every id. */
  ghost predicate CrowdLists(g: Graph, n: nat) {
    && OldEdges(g, n)
    && (forall x :: Listed(g.outgoing, x) == OldOut(n, x))
    && (forall x :: Listed(g.incoming, x) == OldIn(n, x))
  }

  lemma NextOldIsNew(n: nat)
    ensures OldEdge(n).id !in OldIds(n)
  {
    forall i: nat | i < n ensures OldIds(n)[i] != OldEdge(n).id {
      OldOnesDiffer(i, n);
    }
  }

  lemma OneMoreEdge(g: Graph, n: nat)
    requires OldEdges(g, n)
    ensures OldEdge(n).id !in g.edges && OldEdges(g.(edges := g.edges[OldEdge(n).id := OldEdge(n)]), n + 1)
  {
    NextOldIsNew(n);
    assert OldIds(n + 1) == OldIds(n) + [OldEdge(n).id];
    forall i: nat | i < n ensures OldEdge(i).id != OldEdge(n).id { OldOnesDiffer(i, n); }
    hide OldEdge, OldIds;
  }

  lemma SameEdgesOnly(g: Graph, h: Graph, n: nat)
    requires OldEdges(g, n) && h.edges == g.edges
    ensures OldEdges(h, n)
  {
  }

  lemma OneMoreOld(g: Graph, n: nat)
    requires CrowdLists(g, n)
    ensures CrowdLists(AddEdge(g, OldEdge(n)), n + 1)
  {
    OneMoreEdge(g, n);
    OldEnds(n);
    var h := AddEdge(g, OldEdge(n));
    forall x ensures Listed(h.outgoing, x) == OldOut(n + 1, x) && Listed(h.incoming, x) == OldIn(n + 1, x) {
      OneEdge(g, OldEdge(n), x);
    }
    SameEdgesOnly(g.(edges := g.edges[OldEdge(n).id := OldEdge(n)]), h, n + 1);
    hide OldEdges, AddEdge, Listed, OldEdge, OldOut, OldIn;
  }

  lemma {:induction false} DeviceLists(n: nat)
    ensures OldOut(n, DeviceId) == [] && OldIn(n, DeviceId) == OldIds(n)
  {
    if n == 0 {
    } else {
      DeviceLists(n - 1);
      OldIsNoDevice(n - 1);
      assert OldIds(n) == OldIds(n - 1) + [OldEdge(n - 1).id];
    }
  }

  lemma {:induction false} OtherLists(n: nat, x: EntityId)
    requires x != DeviceId
    ensures OldIn(n, x) == []
    ensures (forall i: nat | i < n :: x != OldTransaction(i)) ==> OldOut(n, x) == []
  {
    hide OldTransaction, OldEdge;
    if n == 0 {
    } else {
      OtherLists(n - 1, x);
    }
  }

  lemma {:induction false} OldLists(n: nat, i: nat)
    requires i < n
    ensures OldOut(n, OldTransaction(i)) == [OldEdge(i).id]
  {
    hide OldTransaction, OldEdge;
    if i == n - 1 {
      OldIsNoDevice(i);
      forall j: nat | j < i ensures OldTransaction(i) != OldTransaction(j) { OldOnesDiffer(i, j); }
      OtherLists(i, OldTransaction(i));
    } else {
      OldLists(n - 1, i);
      OldOnesDiffer(i, n - 1);
    }
  }

  lemma OldEnds(n: nat)
    ensures OldEdge(n).source == OldTransaction(n) && OldEdge(n).target == DeviceId
  {
  }

  lemma {:induction false} CrowdIs(n: nat)
    ensures Coherent(Crowd(n)) && OnlySuspect(Crowd(n), SuspectId) && DeviceId in Crowd(n).nodes
    ensures CrowdLists(Crowd(n), n)
  {
    hide Coherent, OnlySuspect, CrowdLists, OldEdge, AddEdge, AddNode;
    if n == 0 {
      EmptyCrowd();
      EmptyLists(Crowd(0));
    } else {
      CrowdIs(n - 1);
      AddEdgeKeepsCoherent(Crowd(n - 1), OldEdge(n - 1));
      OldIsBare(n - 1);
      UpdateKeepsSuspect(Crowd(n - 1), EdgeUpdate(OldEdge(n - 1)), SuspectId);
      OneMoreOld(Crowd(n - 1), n - 1);
      SameNodes(Crowd(n - 1), OldEdge(n - 1));
    }
  }

  lemma EmptyLists(g: Graph)
    requires g.edges == map[] && g.outgoing == map[] && g.incoming == map[]
    ensures CrowdLists(g, 0)
  {
  }

  lemma SameNodes(g: Graph, v: EdgeVal)
    ensures AddEdge(g, v).nodes == g.nodes && Apply(g, EdgeUpdate(v)) == AddEdge(g, v)
  {
  }

  lemma OldIsBare(n: nat)
    ensures BareUpdate(EdgeUpdate(OldEdge(n)))
  {
  }

  lemma CrowdIsCrowded(n: nat)
    ensures Crowded(Crowd(n), DeviceId, OldTransactions(n))
  {
    CrowdIs(n);
    var g, ns := Crowd(n), OldTransactions(n);
    hide Coherent, Crowd, OnlySuspect, Neighbors, OldTransaction, OldEdge;
    forall i: nat, j: nat | i < j < n ensures ns[i] != ns[j] { OldOnesDiffer(i, j); }
    assert Neighbors(g, DeviceId, None) == ns by { DeviceNeighbors(g, n); }
    forall v | v in ns ensures OfKind(v, Transaction) && v != DeviceId && Neighbors(g, v, None) == [DeviceId] {
      var i: nat :| i < n && v == ns[i];
      OldIsNoDevice(i);
      OldNeighbors(g, n, i);
    }
  }

  lemma NeighborsAreEnds(g: Graph, x: EntityId, ks: seq<EdgeId>)
    requires Coherent(g) && Listed(g.outgoing, x) + Listed(g.incoming, x) == ks
    ensures Neighbors(g, x, None) == Ends(g, ks, x)
  {
    hide Coherent;
    AllVisible(g, x);
    assert Touching(g, x) == ks;
  }

  lemma EndsOfOld(g: Graph, n: nat)
    requires OldEdges(g, n)
    ensures Ends(g, OldIds(n), DeviceId) == OldTransactions(n)
  {
    forall i: nat | i < n ensures Ends(g, OldIds(n), DeviceId)[i] == OldTransaction(i) {
      OldIsNoDevice(i);
      OldEnds(i);
      assert OldIds(n)[i] == OldEdge(i).id && g.edges[OldEdge(i).id] == OldEdge(i);
    }
  }

  lemma DeviceNeighbors(g: Graph, n: nat)
    requires Coherent(g) && CrowdLists(g, n)
    ensures Neighbors(g, DeviceId, None) == OldTransactions(n)
  {
    DeviceLists(n);
    var none: seq<EdgeId> := [];
    assert none + OldIds(n) == OldIds(n);
    EndsOfOld(g, n);
    hide Coherent, OldEdges, OldIds, OldOut, OldIn, Ends, Neighbors;
    NeighborsAreEnds(g, DeviceId, OldIds(n));
  }

  lemma OneEnd(g: Graph, i: nat, n: nat)
    requires OldEdges(g, n) && i < n
    ensures Ends(g, [OldEdge(i).id], OldTransaction(i)) == [DeviceId]
  {
    OldIsNoDevice(i);
    OldEnds(i);
    assert g.edges[OldEdge(i).id] == OldEdge(i);
  }

  lemma OldNeighbors(g: Graph, n: nat, i: nat)
    requires Coherent(g) && CrowdLists(g, n) && i < n
    ensures Neighbors(g, OldTransaction(i), None) == [DeviceId] && OfKind(OldTransaction(i), Transaction)
  {
    OldLists(n, i);
    OldIsNoDevice(i);
    OtherLists(n, OldTransaction(i));
    OneEnd(g, i, n);
    assert OfKind(OldTransaction(i), Transaction);
    hide Coherent, OldEdges, OldIds, OldOut, OldIn, Ends, Neighbors, OldTransaction, OldEdge;
    var none: seq<EdgeId> := [];
    assert [OldEdge(i).id] + none == [OldEdge(i).id];
    NeighborsAreEnds(g, OldTransaction(i), [OldEdge(i).id]);
  }

  // ----- the two events

  function DeviceEvent(id: string, transaction: string, merchant: string): Event {
    Event(id, "transaction.created", transaction, merchant, 0, None, Some("d"), None, None, None, None)
  }

  const First := DeviceEvent("1", "a", "p")
  const Second := DeviceEvent("22", "b", "q")
  const CrowdedStore := Store(map[], map[], Crowd(196))

  lemma Ids()
    ensures OnlyDevice(First) && OnlyDevice(Second)
    ensures DeviceOf(First) == DeviceOf(Second) == DeviceId && MerchantOf(First) == SuspectId
    ensures MerchantOf(Second) != SuspectId
    ensures TransactionOf(First) == EntityId("txn_a") && TransactionOf(Second) == EntityId("txn_b")
  {
    assert |"d"| == 1;
    NothingToStrip("d");
    NothingToStrip("p");
    NothingToStrip("q");
    NothingToStrip("a");
    NothingToStrip("b");
    assert !("dev_" <= "d") && !("merch_" <= "p") && !("merch_" <= "q") && !("txn_" <= "a") && !("txn_" <= "b");
    assert ("merch_" + "q")[6] == 'q' && ("merch_" + "p")[6] == 'p';
  }

  lemma EdgeIdStart(e: Event, k: EntityKind, c: char)
    requires OnlyDevice(e) && EdgeFor(e, k).Some? && TransactionOf(e) == EntityId("txn_" + [c])
    ensures |EdgeFor(e, k).value.id.text| > 4
    ensures EdgeFor(e, k).value.id.text[0] == 't' && EdgeFor(e, k).value.id.text[4] == c
  {
    NoTokens(e);
  }

  lemma FaithfulByTransaction(e: Event, f: Event, c: char, d: char)
    requires OnlyDevice(e) && OnlyDevice(f) && c != d
    requires TransactionOf(e) == EntityId("txn_" + [c]) && TransactionOf(f) == EntityId("txn_" + [d])
    ensures EdgeIdsFaithful({e, f})
  {
    hide EdgeFor, OnlyDevice, TransactionOf;
    forall a, b, k, l, x | a in {e, f} && b in {e, f} && SeesEdge(a, k, x) && SeesEdge(b, l, x)
      ensures EdgeFor(a, k).value.source == EdgeFor(b, l).value.source
      ensures EdgeFor(a, k).value.target == EdgeFor(b, l).value.target
    {
      EdgeIdStart(a, k, if a == e then c else d);
      EdgeIdStart(b, l, if b == e then c else d);
      assert a == b;
      EdgeKindUnique(a, k, l);
    }
  }

  /** The ids of the crowd's edges are all `o`s, so the events' edges are new. */
  lemma EventEdgesAreNew(g: Graph, n: nat, e: Event, c: char)
    requires OnlyDevice(e) && TransactionOf(e) == EntityId("txn_" + [c]) && CrowdLists(g, n)
    ensures NewEdges(g, e)
  {
    hide EdgeFor, OnlyDevice, TransactionOf;
    forall k | EdgeFor(e, k).Some? ensures EdgeFor(e, k).value.id !in g.edges {
      EdgeIdStart(e, k, c);
      NoTees(n, EdgeFor(e, k).value.id);
    }
  }

  lemma NoTees(n: nat, k: EdgeId)
    requires |k.text| > 0 && k.text[0] == 't'
    ensures k !in OldIds(n)
  {
    forall i: nat | i < n ensures OldIds(n)[i] != k {
      if |Repeat(i)| > 0 { assert Repeat(i)[0] == 'o'; }
    }
  }

  lemma NewTransaction(g: Graph, n: nat, t: EntityId, c: char)
    requires CrowdLists(g, n) && t == EntityId("txn_" + [c]) && c != 'o'
    ensures Touching(g, t) == []
  {
    forall i: nat | i < n ensures t != OldTransaction(i) {
      assert t.text[4] == c;
      if i > 0 { assert OldTransaction(i).text[4] == 'o'; }
    }
    assert t.text[0] == 't' && DeviceId.text[0] == 'd';
    OtherLists(n, t);
    hide OldTransaction, OldEdges, OldOut, OldIn;
  }

  lemma TheyShareDevice()
    ensures ShareDevice(CrowdedStore, First, Second)
  {
    Ids();
    CrowdIs(196);
    Names();
    hide OnlyDevice, DeviceOf, TransactionOf, MerchantOf, Crowd, CrowdLists, Touching, NewEdges, EdgeIdsFaithful;
    FaithfulByTransaction(First, Second, 'a', 'b');
    EventEdgesAreNew(Crowd(196), 196, First, 'a');
    EventEdgesAreNew(Crowd(196), 196, Second, 'b');
    NewTransaction(Crowd(196), 196, TransactionOf(First), 'a');
    NewTransaction(Crowd(196), 196, TransactionOf(Second), 'b');
    var e, f, s := First, Second, CrowdedStore;
    hide *;
    TogetherShareDevice(s, e, f);
  }

  lemma Names()
    ensures TransactionOf(First) == EntityId("txn_" + ['a']) && TransactionOf(Second) == EntityId("txn_" + ['b'])
    ensures First.eventId != Second.eventId && TransactionOf(First) != TransactionOf(Second)
    ensures CrowdedStore.graph == Crowd(196) && CrowdedStore.byId == map[]
  {
    Ids();
    assert "txn_a" == "txn_" + ['a'] && "txn_b" == "txn_" + ['b'];
    assert |First.eventId| != |Second.eventId|;
    assert "txn_a"[4] != "txn_b"[4];
    hide Crowd, TransactionOf, MerchantOf, DeviceOf, OnlyDevice;
  }

  lemma TogetherShareDevice(s: Store, e: Event, f: Event)
    requires e.eventId != f.eventId && e.eventId !in s.byId && f.eventId !in s.byId
    requires OnlyDevice(e) && OnlyDevice(f) && DeviceOf(e) == DeviceOf(f)
    requires TransactionOf(e) != TransactionOf(f) && MerchantOf(e) != MerchantOf(f)
    requires Touching(s.graph, TransactionOf(e)) == [] && Touching(s.graph, TransactionOf(f)) == []
    requires NewEdges(s.graph, e) && NewEdges(s.graph, f) && EdgeIdsFaithful({e, f})
    ensures ShareDevice(s, e, f)
  {
  }

  /** So there is a store, and there are two events, that score a device 0.2 in one order of
      delivery and 0 in the other. */
  lemma TwoOrdersTwoScores(sigma: real -> real)
    ensures AssessedScore(Continued(CrowdedStore, [First, Second]).graph, DeviceId, None, sigma) == 2000
    ensures AssessedScore(Continued(CrowdedStore, [Second, First]).graph, DeviceId, None, sigma) == 0
  {
    Ids();
    TheyShareDevice();
    CrowdIs(196);
    CrowdIsCrowded(196);
    assert CrowdedStore.graph == Crowd(196) && |OldTransactions(196)| + 4 == MAX_NODES;
    hide *;
    ScoreDependsOnOrder(CrowdedStore, First, Second, OldTransactions(196), sigma);
  }
}
