/** The evaluation endpoint over the live objects it mutates. */
module RiskService {
  import opened Options
  import opened GraphModel
  import opened EntityGraphs
  import opened EventUpdates
  import opened IngestionOrder
  import opened EventProcessor
  import opened EntityIds
  import opened CrossMerchantRisk
  import opened CalibrationRegistries
  import opened Logistic
  import opened DecisionReplay
  import opened RiskEvaluation

  class IdempotencyRepository {
    var records: map<RecordKey, Record>

    constructor ()
      ensures records == map[]
    {
      records := map[];
    }

    method Get(merchantId: string, key: string) returns (r: Option<Record>)
      ensures r == if (merchantId, key) in records then Some(records[(merchantId, key)]) else None
    {
      r := if (merchantId, key) in records then Some(records[(merchantId, key)]) else None;
    }

    method Save(merchantId: string, key: string, record: Record)
      modifies this
      ensures records == old(records)[(merchantId, key) := record]
    {
      records := records[(merchantId, key) := record];
    }
  }

  datatype Check = NotSeen | Cached(payload: Response) | Mismatch

  /** `check_idempotency`: without a key nothing is ever found. */
  method CheckIdempotency(repo: IdempotencyRepository, key: Option<string>, q: Request) returns (r: Check)
    ensures r.NotSeen? <==> !(HasKey(key) && (q.merchantId, key.value) in repo.records)
    ensures r.Mismatch? <==> !r.NotSeen? && repo.records[(q.merchantId, key.value)].hash != RequestHash(q)
    ensures r.Cached? ==> r.payload == repo.records[(q.merchantId, key.value)].payload
  {
    if !HasKey(key) {
      return NotSeen;
    }
    var existing := repo.Get(q.merchantId, key.value);
    if existing.None? {
      return NotSeen;
    }
    if existing.value.hash != RequestHash(q) {
      return Mismatch;
    }
    return Cached(existing.value.payload);
  }

  class RiskApi {
    const idempotency: IdempotencyRepository
    const events: IntegrationEventRepository
    const graph: EntityGraph
    const registry: CalibrationRegistry
    var snapshots: map<string, Snapshot>
    var webhooks: seq<Webhook>

    /** The endpoint works on the process-wide stores it is given. */
    constructor (
      idempotency: IdempotencyRepository, events: IntegrationEventRepository, graph: EntityGraph,
      registry: CalibrationRegistry)
      requires graph.Valid() && registry.Settled()
      ensures Valid() && snapshots == map[] && webhooks == []
      ensures this.idempotency == idempotency && this.events == events
      ensures this.graph == graph && this.registry == registry
    {
      this.idempotency, this.events, this.graph, this.registry := idempotency, events, graph, registry;
      snapshots, webhooks := map[], [];
    }

    ghost predicate Valid()
      reads this, graph, graph.nodes.Values, graph.edges.Values, registry
    {
      graph.Valid() && registry.Settled()
    }

    ghost function View(): Service
      reads this, idempotency, events, graph, registry, registry.configs.Values
    {
      Service(idempotency.records, Store(events.eventsById, events.eventsByTxn, graph.view), snapshots, webhooks,
              registry.View())
    }

    /** Ownership, idempotency check, ingestion, scoring, snapshot, webhook, record. */
    method EvaluateTransactionRisk(
      exp: real -> real, q: Request, key: Option<string>, owner: bool, env: Surroundings) returns (r: Outcome)
      requires Valid() && IsExp(exp)
      modifies this, idempotency, events, graph, graph.nodes.Values, graph.edges.Values
      ensures Valid()
      ensures (View(), r) == Evaluate(exp, old(View()), q, key, owner, env)
    {
      hide Fresh, IsExp, Coherent;
      if !owner {
        return Forbidden;
      }
      var check := CheckIdempotency(idempotency, key, q);
      if check.Mismatch? {
        return Conflict;
      }
      if check.Cached? {
        return Answer(check.payload);
      }
      var answer := EvaluateFresh(exp, q, key, env);
      r := Answer(answer);
    }

    /** What the live graph says about one token. */
    method AskGraph(exp: real -> real, kind: EntityKind, token: Option<string>, cut: Time, fault: bool)
      returns (r: DecisionReplay.Lookup)
      requires Valid() && IsExp(exp)
      ensures r == GraphAnswer(exp, graph.view, kind, token, cut, fault)
    {
      hide IsExp, AssessedScore, Coherent;
      if Present(token).None? {
        return NoToken;
      }
      if fault {
        return Fault;
      }
      var x := MakeEntityId(kind, token.value);
      var assessment := ComputeCrossMerchantRisk(graph, x, Some(cut), GraphCurve(exp));
      ScoreExplained(assessment, graph.view, x, Some(cut), GraphCurve(exp));
      r := AsLookup(assessment.score);
    }

    /** The scorer, then the graph for the device and, unless that failed, for the address. */
    method Score(exp: real -> real, c: Config, q: Request, env: Surroundings) returns (d: Decision)
      requires Valid() && IsExp(exp)
      ensures d == Decide(exp, c, q, env, graph.view)
    {
      hide DecideWith, GraphAnswer, IsExp, Coherent;
      var device := AskGraph(exp, Device, q.deviceToken, q.timestamp, env.deviceFault);
      var ip := NoToken;
      if !device.Fault? {
        ip := AskGraph(exp, Ip, q.ipToken, q.timestamp, env.ipFault);
      }
      d := DecideWith(exp, c, q, env, device, ip);
    }

    /** Everything past the idempotency check, in the order of the source. */
    method EvaluateFresh(exp: real -> real, q: Request, key: Option<string>, env: Surroundings) returns (answer: Response)
      requires Valid() && IsExp(exp)
      modifies this, idempotency, events, graph, graph.nodes.Values, graph.edges.Values
      ensures Valid()
      ensures (View(), answer) == Fresh(exp, old(View()), q, key, env)
    {
      hide Decide, Finished, Processed, CreatedEvent, IsExp, Coherent, ActiveConfig;
      var isNew := ProcessIntegrationEvent(events, graph, CreatedEvent(q));
      answer := DecideAndRecord(exp, q, key, env);
    }

    /** What follows the ingestion: the graph and the registry are only read. */
    method DecideAndRecord(exp: real -> real, q: Request, key: Option<string>, env: Surroundings)
      returns (answer: Response)
      requires Valid() && IsExp(exp)
      modifies this, idempotency
      ensures Valid()
      ensures var c := ActiveConfig(old(View()).registry);
        (View(), answer) == Finished(old(View()), c, q, key, env, Decide(exp, c, q, env, old(View()).store.graph))
    {
      hide Decide, SnapshotOf, HasKey, Finished, IsExp, Coherent, ActiveConfig;
      ghost var before := View();
      var active := registry.GetActive();
      var c := active.value;
      var d := Score(exp, c, q, env);
      answer := RecordDecision(c, q, key, env, d);
      FinishedParts(before, View(), answer, c, q, key, env, d);
    }

    /** Snapshot, response, webhook and idempotency record, in this order. */
    method RecordDecision(c: Config, q: Request, key: Option<string>, env: Surroundings, d: Decision)
      returns (answer: Response)
      modifies this, idempotency
      ensures var snap := SnapshotOf(c, q, env, d);
        && answer == Response(q.transactionId, d.action, d.score, d.quality, c.version, snap.Some?, env.stamp)
        && snapshots == (if snap.Some? then old(snapshots)[q.transactionId := snap.value] else old(snapshots))
        && webhooks == old(webhooks) + [Webhook(q.transactionId, d.action, d.score)]
        && idempotency.records == (if HasKey(key)
             then old(idempotency.records)[(q.merchantId, key.value) := Record(RequestHash(q), answer)]
             else old(idempotency.records))
    {
      hide SnapshotOf;
      var snap := SnapshotOf(c, q, env, d);
      if snap.Some? {
        snapshots := snapshots[q.transactionId := snap.value];
      }
      answer := Response(q.transactionId, d.action, d.score, d.quality, c.version, snap.Some?, env.stamp);
      webhooks := webhooks + [Webhook(q.transactionId, d.action, d.score)];
      if HasKey(key) {
        idempotency.Save(q.merchantId, key.value, Record(RequestHash(q), answer));
      }
    }
  }

  lemma FinishedParts(
    s: Service, t: Service, answer: Response, c: Config, q: Request, key: Option<string>, env: Surroundings,
    d: Decision)
    requires var snap := SnapshotOf(c, q, env, d);
      && answer == Response(q.transactionId, d.action, d.score, d.quality, c.version, snap.Some?, env.stamp)
      && t.snapshots == (if snap.Some? then s.snapshots[q.transactionId := snap.value] else s.snapshots)
      && t.webhooks == s.webhooks + [Webhook(q.transactionId, d.action, d.score)]
      && t.records == (if HasKey(key)
           then s.records[(q.merchantId, key.value) := Record(RequestHash(q), answer)] else s.records)
      && t.store == s.store && t.registry == s.registry
    ensures (t, answer) == Finished(s, c, q, key, env, d)
  {
    hide SnapshotOf, HasKey;
  }

  lemma ScoreExplained(r: Assessment, g: Graph, x: EntityId, asOf: Option<Time>, sigma: real -> real)
    requires Explains(r, g, x, asOf, sigma)
    ensures r.score == AssessedScore(g, x, asOf, sigma)
  {
  }
}
