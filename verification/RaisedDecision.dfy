/** A decision the graph does raise, and whose replay therefore disagrees. */
module RaisedDecision {
  import opened Options
  import opened Numeric
  import opened GraphModel
  import opened EntityIds
  import opened PyStrings
  import opened EventUpdates
  import opened IngestionOrder
  import opened CrossMerchantRisk
  import opened CalibrationRegistries
  import opened Logistic
  import opened DecisionReplay
  import opened RiskEvaluation

  const Quiet := Features(0.0, 0.0, 0.0, 0.0, 0.0, 0.0, 0.0, 0.0)
  const Calm := Surroundings(0.0, Quiet, false, false, false, "")
  const Suspect := NodeVal(EntityId("dev_a"), Device, 0, 0, 0.8, 1)

  /** A service whose graph holds one device with a prior investigation. */
  const Before := Service(map[], Store(map[], map[], AddNode(EMPTY, Suspect)), map[], [], INITIAL)

  const Payment := Request("a", "a", 1.0, "USD", 0, Some("a"), Some("a"), Some("a"), Some("a"), "")

  lemma DeviceId()
    ensures MakeEntityId(Device, "a") == EntityId("dev_a")
  {
    NothingToStrip("a");
    assert !("dev_" <= "a");
  }

  /** Ingestion merges a sighting at 0 into the device and keeps its base score. */
  lemma DeviceAfterIngestion()
    ensures var g := Ingested(Before, Payment).graph;
      && EntityId("dev_a") in g.nodes
      && NodeAsOf(g, EntityId("dev_a"), Some(0)).Some?
      && PriorRule(g.nodes[EntityId("dev_a")], Some(0)) == Fires(PriorInvestigation, 8000)
  {
    var e, x := CreatedEvent(Payment), EntityId("dev_a");
    DeviceId();
    assert SeesNode(e, Device, x);
    EventTouchesNode(e, Device, x);
    NodeEffect(AddNode(EMPTY, Suspect), UpdatesOf(e), x);
    RoundOfInteger(8000);
  }

  lemma BlockNonNegative(e: Event, k: EntityKind)
    ensures UpdatesNonNegative(EventUpdates.Block(e, k))
  {
  }

  lemma {:induction false} BlocksNonNegative(e: Event, n: nat)
    ensures UpdatesNonNegative(Blocks(e, n))
  {
    hide EventUpdates.Block, KindAt;
    if n == 0 {
    } else {
      BlocksNonNegative(e, n - 1);
      BlockNonNegative(e, KindAt(n - 1));
    }
  }

  lemma CountersAfterIngestion()
    ensures CountersNonNegative(Ingested(Before, Payment).graph)
  {
    hide Blocks, ApplyAll;
    BlocksNonNegative(CreatedEvent(Payment), 6);
    RunKeepsCountersNonNegative(AddNode(EMPTY, Suspect), UpdatesOf(CreatedEvent(Payment)));
  }

  lemma SuspectScore(exp: real -> real, g: Graph, x: EntityId, cut: Time)
    requires IsExp(exp) && CountersNonNegative(g) && NodeAsOf(g, x, Some(cut)).Some? && x in g.nodes
    requires PriorRule(g.nodes[x], Some(cut)) == Fires(PriorInvestigation, 8000)
    ensures AssessedScore(g, x, Some(cut), GraphCurve(exp)) >= 8000
  {
    GraphCurveInUnit(exp);
    hide PriorRule, AssessedScore, IsExp, CountersNonNegative, GraphCurve, NodeAsOf;
    ScoreInUnit(g, x, Some(cut), GraphCurve(exp));
  }

  lemma SuspectRisk(exp: real -> real, g: Graph, q: Request, env: Surroundings, token: string)
    requires IsExp(exp) && q.deviceToken == Some(token) && token != "" && !env.deviceFault
    requires AssessedScore(g, MakeEntityId(Device, token), Some(q.timestamp), GraphCurve(exp)) >= 8000
    ensures var l := DeviceAnswer(exp, g, q, env);
      l.Risk? && l.score >= 0.8
  {
    hide AssessedScore, IsExp, GraphCurve, MakeEntityId;
  }

  /** So the device's risk is at least 0.8. */
  lemma DeviceRisk(exp: real -> real)
    requires IsExp(exp)
    ensures var l := DeviceAnswer(exp, Ingested(Before, Payment).graph, Payment, Calm);
      l.Risk? && l.score >= 0.8
  {
    DeviceId();
    DeviceAfterIngestion();
    CountersAfterIngestion();
    assert Payment.deviceToken == Some("a") && Payment.timestamp == 0 && !Calm.deviceFault && |"a"| == 1;
    hide *;
    SuspectScore(exp, Ingested(Before, Payment).graph, EntityId("dev_a"), 0);
    SuspectRisk(exp, Ingested(Before, Payment).graph, Payment, Calm, "a");
  }

  lemma {:induction false} NothingToSum(ws: seq<(string, real)>, vs: Values)
    requires forall key :: ValueOf(vs, key) == 0.0
    ensures WeightedSum(ws, vs) == 0.0
  {
    if ws == [] {
    } else {
      NothingToSum(ws[..|ws| - 1], vs);
    }
  }

  /** Without any behavioural finding the default configuration scores below one half. */
  lemma QuietScore(exp: real -> real)
    requires IsExp(exp)
    ensures BaseScore(exp, DEFAULT, Quiet) <= 0.5
  {
    QuietValues();
    NothingToSum(DEFAULT.weights, ScorerValues(Quiet));
    SigmoidBelowHalf(exp);
    assert DEFAULT.intercept == -0.10;
  }

  lemma QuietValues()
    ensures forall key :: ValueOf(ScorerValues(Quiet), key) == 0.0
  {
  }

  lemma SigmoidBelowHalf(exp: real -> real)
    requires IsExp(exp)
    ensures Round4(ScorerSigmoid(exp, -0.10)) <= 0.5
  {
    assert exp(0.10) >= 1.10;
    var p := Inverse(exp(0.10));
    assert p * (1.0 + exp(0.10)) == 1.0;
    assert p > 0.5 ==> p * (1.0 + exp(0.10)) > 0.5 * (1.0 + exp(0.10));
    Round4Monotone(ScorerSigmoid(exp, -0.10), 0.5);
    RoundOfInteger(5000);
  }

  lemma RaiseReaches(base: real, risk: real)
    requires risk >= 0.8
    ensures Raise(base, risk) >= 0.8
  {
    Round4Monotone(0.8, Max(base, risk));
    RoundOfInteger(8000);
  }

  lemma ScoreReaches(base: real, device: DecisionReplay.Lookup, ip: DecisionReplay.Lookup)
    requires IsFourDigits(base) && device.Risk? && device.score >= 0.8
    ensures ScoreWithGraph(base, device, ip) >= 0.8
  {
    RaiseReaches(base, device.score);
    RaiseFacts(base, device.score);
    if ip.Risk? {
      RaiseFacts(Raise(base, device.score), ip.score);
    }
  }

  /** With all four tokens the evidence is strong. */
  lemma StrongEvidence()
    ensures EvidenceQuality(Payment, 0.0) == 0.80
  {
    RoundOfInteger(80);
  }

  /** A quiet session on a suspect device: the graph raises the score from at most 0.5 to at
      least 0.8, the payment is blocked, and the replay of the stored snapshot comes to another
      score. So the condition under which replay agrees is not always met. */
  lemma RaisedDecisionDoesNotReplay(exp: real -> real)
    requires IsExp(exp)
    ensures SnapshotAt(exp, Before, Payment, Calm).Some?
    ensures var replay := ReplayDecision(exp, Before.registry, SnapshotAt(exp, Before, Payment, Calm).value);
      replay.delta >= 0.3 && !replay.matches
  {
    var g := Ingested(Before, Payment).graph;
    var device, ip := DeviceAnswer(exp, g, Payment, Calm), IpAnswer(exp, g, Payment, Calm);
    DeviceRisk(exp);
    QuietScore(exp);
    BaseIsFourDigits(exp, DEFAULT, Quiet);
    ScoreReaches(BaseScore(exp, DEFAULT, Quiet), device, ip);
    StrongEvidence();
    InitialFacts();
    Blocked(exp, device, ip);
    InitialIsSound();
    hide IsExp, Sound, BaseScore, DecideWith, IsFourDigits, Round4, ScoreWithGraph, Processed, GraphAnswer, DeviceAnswer, IpAnswer,
      ReplayDecision, SnapshotValues, Crosses, Silent;
    SavedSnapshotReplays(exp, Before, Payment, Calm, []);
    assert After(Before.registry, []) == Before.registry;
  }

  lemma InitialFacts()
    ensures ActiveConfig(INITIAL) == DEFAULT && DEFAULT.thresholds == Thresholds("thresh-default-v1.0", 0.30, 0.70, 0.70)
  {
  }

  lemma Blocked(exp: real -> real, device: DecisionReplay.Lookup, ip: DecisionReplay.Lookup)
    requires IsExp(exp) && device.Risk? && !ip.Fault?
    requires ScoreWithGraph(BaseScore(exp, DEFAULT, Quiet), device, ip) >= 0.8
    requires EvidenceQuality(Payment, 0.0) == 0.80
    ensures SnapshotOf(DEFAULT, Payment, Calm, DecideWith(exp, DEFAULT, Payment, Calm, device, ip)).Some?
    ensures var d := DecideWith(exp, DEFAULT, Payment, Calm, device, ip);
      d.base == BaseScore(exp, DEFAULT, Quiet) && d.score >= 0.8
  {
    InitialFacts();
    BlockedUnder(exp, DEFAULT, Payment, Calm, device, ip);
  }

  lemma BlockedUnder(
    exp: real -> real, c: Config, q: Request, env: Surroundings, device: DecisionReplay.Lookup,
    ip: DecisionReplay.Lookup)
    requires IsExp(exp) && device.Risk? && !ip.Fault? && !env.auditFault
    requires c.thresholds.high == 0.70 && c.thresholds.evidence == 0.70
    requires ScoreWithGraph(BaseScore(exp, c, env.features), device, ip) >= 0.8
    requires EvidenceQuality(q, env.fxPenalty) == 0.80
    ensures SnapshotOf(c, q, env, DecideWith(exp, c, q, env, device, ip)).Some?
    ensures var d := DecideWith(exp, c, q, env, device, ip);
      d.base == BaseScore(exp, c, env.features) && d.score >= 0.8
  {
    hide IsExp, BaseScore, ScoreWithGraph, EvidenceQuality, SnapshotValues;
  }

  // ----- and one whose configuration is changed after it

  const Tokenless := Payment.(deviceToken := None, ipToken := None)

  /** The default configuration after its holder has raised the intercept. */
  const Louder := DEFAULT.(intercept := 100.0)

  lemma LoudScore(exp: real -> real, c: Config)
    requires IsExp(exp) && c.intercept == 100.0
    ensures BaseScore(exp, c, Quiet) == 1.0
  {
    QuietValues();
    NothingToSum(c.weights, ScorerValues(Quiet));
    SigmoidsAgree(exp, 100.0);
    RoundsToOne(1.0);
    hide Round4, ScorerSigmoid, ScorerValues, IsExp, WeightedSum;
  }

  lemma TokenlessAnswers(exp: real -> real, g: Graph)
    requires IsExp(exp)
    ensures DeviceAnswer(exp, g, Tokenless, Calm).NoToken? && IpAnswer(exp, g, Tokenless, Calm).NoToken?
  {
    hide IsExp, AssessedScore;
  }

  /** Below the high threshold there is always something to store. */
  lemma LowIsStored(exp: real -> real, c: Config, q: Request, env: Surroundings)
    requires IsExp(exp) && !env.auditFault && BaseScore(exp, c, env.features) < c.thresholds.high
    ensures var d := DecideWith(exp, c, q, env, NoToken, NoToken);
      SnapshotOf(c, q, env, d).Some? && d.score == BaseScore(exp, c, env.features)
  {
    hide IsExp, BaseScore, EvidenceQuality, SnapshotValues;
  }

  lemma FarApart(a: real, b: real)
    requires a <= 0.5 && b == 1.0
    ensures Round4(Abs(b - a)) >= 0.5
  {
    Round4Monotone(0.5, Abs(b - a));
    RoundOfInteger(5000);
  }

  lemma FoundChanged()
    ensures ActiveConfig(Before.registry) == DEFAULT && DEFAULT.version == DEFAULT_VERSION
    ensures ConfigFor(ChangedConfigs.Changed(Before.registry, DEFAULT_VERSION, Louder), DEFAULT_VERSION) == Louder
    ensures DEFAULT.thresholds.high == 0.70 && Louder.intercept == 100.0 && !Calm.auditFault && Calm.features == Quiet
  {
  }

  /** A stored configuration whose intercept is changed after a decision no longer judges it
      alike: the replay comes to another score and does not match. */
  lemma ChangedConfigBreaksReplay(exp: real -> real)
    requires IsExp(exp)
    ensures SnapshotAt(exp, Before, Tokenless, Calm).Some?
    ensures var later := ChangedConfigs.Changed(Before.registry, DEFAULT_VERSION, Louder);
      var replay := ReplayDecision(exp, later, SnapshotAt(exp, Before, Tokenless, Calm).value);
      replay.score == 1.0 && !replay.matches
  {
    hide *;
    var later := ChangedConfigs.Changed(Before.registry, DEFAULT_VERSION, Louder);
    FoundChanged();
    QuietScore(exp);
    LoudScore(exp, Louder);
    TokenlessAnswers(exp, Ingested(Before, Tokenless).graph);
    DecisionParts(exp, Before, Tokenless, Calm);
    LowIsStored(exp, DEFAULT, Tokenless, Calm);
    ReplaysExactlyWhenJudgedAlike(exp, Before, Tokenless, Calm, later);
    FarApart(DecisionAt(exp, Before, Tokenless, Calm).score, 1.0);
  }
}
