/** What an evaluation makes of its own request: the evidence it counts, the entities it writes,
    and a session loud enough to be blocked. */
module EvaluationEffects {
  import opened Options
  import opened Numeric
  import opened GraphModel
  import opened EntityIds
  import opened EventUpdates
  import opened IngestedEvent
  import opened CalibrationRegistries
  import opened Logistic
  import opened DecisionReplay
  import opened LinearScore
  import opened CrossMerchantRisk
  import opened RiskEvaluation

  predicate Given(token: Option<string>) { token.Some? && token.value != "" }

  // ----- evidence

  /** A quarter to begin with, 0.15 for each of device, address and account, 0.10 for the
      instrument, less the penalty, within [0,1] and to two digits. */
  lemma EvidenceCounts(q: Request, penalty: real, raw: real)
    requires raw == 0.25 + (if Given(q.deviceToken) then 0.15 else 0.0) + (if Given(q.ipToken) then 0.15 else 0.0)
                    + (if Given(q.accountToken) then 0.15 else 0.0) + (if Given(q.instrumentToken) then 0.10 else 0.0)
                    - penalty
    ensures EvidenceQuality(q, penalty) == Round2(if raw < 0.0 then 0.0 else if raw > 1.0 then 1.0 else raw)
  {
    hide Round2;
  }

  lemma Hundredths(n: int)
    ensures Round2(n as real / 100.0) == n as real / 100.0
  {
    RoundOfInteger(n);
    assert n as real / 100.0 * 100.0 == n as real;
  }

  // ----- what is written

  /** The nodes of a new request: merchant, transaction and every token it carries, each under its
      own kind and at the time of the request. */
  lemma RequestIsIngested(s: Service, q: Request, x: EntityId)
    requires "evt_" + q.transactionId + "_created" !in s.store.byId
    ensures var g, h, t := s.store.graph, Ingested(s, q).graph, q.timestamp;
      && (x == MakeEntityId(Merchant, q.merchantId) ==> Sighted(g, h, x, Merchant, t))
      && (x == MakeEntityId(Transaction, q.transactionId) ==> Sighted(g, h, x, Transaction, t))
      && (TokenId(q.deviceToken, Device, x) ==> Sighted(g, h, x, Device, t))
      && (TokenId(q.ipToken, Ip, x) ==> Sighted(g, h, x, Ip, t))
      && (TokenId(q.accountToken, Account, x) ==> Sighted(g, h, x, Account, t))
      && (TokenId(q.instrumentToken, PaymentInstrument, x) ==> Sighted(g, h, x, PaymentInstrument, t))
    ensures "evt_" + q.transactionId + "_created" in Ingested(s, q).byId
  {
    NodesWritten(s.store, CreatedEvent(q), x);
    hide Sighted, UpdatesOf, ApplyAll, MakeEntityId;
  }

  /** The stored event of a new request, field by field. */
  lemma RequestIsStored(s: Service, q: Request)
    requires "evt_" + q.transactionId + "_created" !in s.store.byId
    ensures var id := "evt_" + q.transactionId + "_created";
      && id in Ingested(s, q).byId
      && var e := Ingested(s, q).byId[id];
      && e.eventId == id && e.eventType == "transaction.created" && e.timestamp == q.timestamp
      && e.transactionId == q.transactionId && e.merchantId == q.merchantId
      && e.amount == Some(q.amount) && e.currency == Some(q.currency)
      && e.accountToken == q.accountToken && e.deviceToken == q.deviceToken && e.ipToken == q.ipToken
      && e.instrumentToken == q.instrumentToken
  {
    hide UpdatesOf, ApplyAll;
  }

  // ----- what the graph is asked, and what is recorded

  /** What the graph is asked about a token: nothing without one, else the assessed score of the id
      of that kind, as of the given moment. */
  ghost predicate Asked(
    exp: real -> real, g: Graph, l: DecisionReplay.Lookup, kind: EntityKind, token: Option<string>, cut: Time,
    fault: bool)
    requires IsExp(exp)
  {
    if !Given(token) then l == NoToken
    else if fault then l == Fault
    else
      && l.Risk?
      && l.score * 10000.0 == AssessedScore(g, MakeEntityId(kind, token.value), Some(cut), GraphCurve(exp)) as real
  }

  lemma LookupsExactly(exp: real -> real, g: Graph, q: Request, env: Surroundings)
    requires IsExp(exp)
    ensures Asked(exp, g, DeviceAnswer(exp, g, q, env), Device, q.deviceToken, q.timestamp, env.deviceFault)
    ensures if Given(q.deviceToken) && env.deviceFault then IpAnswer(exp, g, q, env) == NoToken
            else Asked(exp, g, IpAnswer(exp, g, q, env), Ip, q.ipToken, q.timestamp, env.ipFault)
  {
    hide IsExp, AssessedScore, MakeEntityId, GraphCurve;
  }

  /** What answer, webhook and snapshot of an evaluation say. */
  lemma RecordedExactly(exp: real -> real, s: Service, q: Request, key: Option<string>, env: Surroundings)
    requires IsExp(exp)
    ensures var (t, answer) := Fresh(exp, s, q, key, env);
      var d, c := DecisionAt(exp, s, q, env), ActiveConfig(s.registry);
      && answer.transactionId == q.transactionId && answer.decision == d.action && answer.score == d.score
      && answer.quality == d.quality && answer.calibration == c.version
      && t.webhooks == s.webhooks + [Webhook(q.transactionId, answer.decision, answer.score)]
      && (answer.recorded ==>
            && q.transactionId in t.snapshots
            && var snap := t.snapshots[q.transactionId];
            && snap.transactionId == q.transactionId && snap.merchantId == q.merchantId
            && snap.score == d.score && snap.quality == d.quality && snap.calibration == c.version
            && snap.values == ScorerValues(env.features) && Some(snap.action) == AsRecommended(d.action))
  {
    SameValues(env.features);
    hide IsExp, DecisionAt, ScorerValues, SnapshotValues, ActiveConfig, Ingested;
  }

  // ----- a loud session

  const AllLoud := Features(1.0, 1.0, 1.0, 1.0, 1.0, 1.0, 1.0, 1.0)

  predicate AllGiven(q: Request) {
    Given(q.deviceToken) && Given(q.ipToken) && Given(q.accountToken) && Given(q.instrumentToken)
  }

  lemma InverseFromBelow(e: real, big: real)
    requires e > 0.0 && big >= 2.85 && e * big == 1.0
    ensures 0.74 < Inverse(e) < 1.0
  {
    InverseInUnit(e);
    assert e >= 0.351 ==> e * big >= 0.351 * big;
    assert e < 0.351;
    var p := Inverse(e);
    assert p * (1.0 + e) == 1.0;
    assert p <= 0.74 ==> p * (1.0 + e) <= 0.74 * (1.0 + e);
  }

  lemma LoudSigmoid(exp: real -> real)
    requires IsExp(exp)
    ensures Round4(ScorerSigmoid(exp, 1.85)) >= 0.74
  {
    ExpOfNegative(exp, 1.85);
    assert exp(1.85) >= 2.85;
    InverseFromBelow(exp(-1.85), exp(1.85));
    Round4Monotone(0.74, ScorerSigmoid(exp, 1.85));
    RoundOfInteger(7400);
  }

  lemma LoudScore(exp: real -> real)
    requires IsExp(exp)
    ensures BaseScore(exp, DEFAULT, AllLoud) >= 0.74
  {
    DefaultTerm(AllLoud);
    LoudSigmoid(exp);
    hide WeightedSum, ScorerSigmoid, ScorerValues, Round4;
  }

  lemma FullEvidence(q: Request)
    requires AllGiven(q)
    ensures EvidenceQuality(q, 0.0) == 0.80
  {
    hide EvidenceQuality;
    EvidenceCounts(q, 0.0, 0.80);
    Hundredths(80);
  }

  lemma DefaultThresholds()
    ensures DEFAULT.thresholds.low == 0.30 && DEFAULT.thresholds.high == 0.70 && DEFAULT.thresholds.evidence == 0.70
  {
    hide ComputeConfigHash;
  }

  /** The answer of each lookup is a fault exactly if the token is asked about and faults. */
  lemma Faults(exp: real -> real, g: Graph, q: Request, env: Surroundings)
    requires IsExp(exp) && AllGiven(q)
    ensures DeviceAnswer(exp, g, q, env).Fault? <==> env.deviceFault
    ensures IpAnswer(exp, g, q, env).Fault? <==> !env.deviceFault && env.ipFault
  {
    hide IsExp;
  }

  lemma FaultyEvidence(device: DecisionReplay.Lookup, ip: DecisionReplay.Lookup)
    ensures QualityWithGraph(0.80, device, ip) == if device.Fault? || ip.Fault? then 0.55 else 0.80
  {
    Hundredths(55);
    hide Round2;
  }

  lemma JudgedAt(exp: real -> real, c: Config, q: Request, env: Surroundings, device: DecisionReplay.Lookup, ip: DecisionReplay.Lookup)
    requires IsExp(exp)
    ensures var d := DecideWith(exp, c, q, env, device, ip);
      && d.base == BaseScore(exp, c, env.features) && d.score >= d.base
      && d.quality == QualityWithGraph(EvidenceQuality(q, env.fxPenalty), device, ip)
      && d.action == LivePolicy(d.score, d.quality, c.thresholds)
  {
    BaseIsFourDigits(exp, c, env.features);
    hide IsExp, BaseScore, ScoreWithGraph, QualityWithGraph, EvidenceQuality, LivePolicy;
    NotRaisedExactly(BaseScore(exp, c, env.features), device, ip);
  }

  /** With every component at 1 the default configuration scores at least 0.74. With all four tokens
      that is blocked, whatever the graph holds, unless a lookup faults: then the evidence counts
      0.55 and a human or a challenge decides. */
  lemma LoudSessionIsBlocked(exp: real -> real, s: Service, q: Request, key: Option<string>, env: Surroundings)
    requires IsExp(exp) && ActiveConfig(s.registry) == DEFAULT && AllGiven(q)
    requires env.features == AllLoud && env.fxPenalty == 0.0
    ensures var answer := Fresh(exp, s, q, key, env).1;
      && answer.score >= 0.74
      && answer.quality == (if env.deviceFault || env.ipFault then 0.55 else 0.80)
      && (answer.decision == Block <==> !env.deviceFault && !env.ipFault)
      && answer.decision != Allow
  {
    hide *;
    var g := Ingested(s, q).graph;
    var device, ip := DeviceAnswer(exp, g, q, env), IpAnswer(exp, g, q, env);
    DecisionParts(exp, s, q, env);
    FreshAnswers(exp, s, q, key, env);
    JudgedAt(exp, DEFAULT, q, env, device, ip);
    LoudScore(exp);
    FullEvidence(q);
    Faults(exp, g, q, env);
    FaultyEvidence(device, ip);
    DefaultThresholds();
    HighRisk(DecisionAt(exp, s, q, env).score, DecisionAt(exp, s, q, env).quality, DEFAULT.thresholds);
  }

  lemma HighRisk(score: real, quality: real, t: Thresholds)
    requires score >= t.high
    ensures LivePolicy(score, quality, t) == Block <==> quality >= t.evidence
    ensures LivePolicy(score, quality, t) != Allow
  {
  }

  lemma FreshAnswers(exp: real -> real, s: Service, q: Request, key: Option<string>, env: Surroundings)
    requires IsExp(exp)
    ensures var answer, d := Fresh(exp, s, q, key, env).1, DecisionAt(exp, s, q, env);
      answer.score == d.score && answer.quality == d.quality && answer.decision == d.action
  {
    hide IsExp, DecisionAt, SnapshotOf;
  }
}
