/** The idempotent evaluation endpoint as a transition on everything it touches. */
module RiskEvaluation {
  import opened Options
  import opened Numeric
  import opened GraphModel
  import opened EntityIds
  import opened CrossMerchantRisk
  import opened EventUpdates
  import opened IngestionOrder
  import opened CalibrationRegistries
  import ChangedConfigs
  import opened Logistic
  import opened DecisionReplay

  datatype Request = Request(
    transactionId: string, merchantId: string, amount: real, currency: string, timestamp: Time,
    accountToken: Option<string>, deviceToken: Option<string>, ipToken: Option<string>,
    instrumentToken: Option<string>, rest: string)

  /** SHA-256 of the canonical request, modelled as injective. */
  datatype RequestHash = RequestHash(request: Request)

  /** What the call finds outside the modelled state: the currency penalty, the behavioural
      features, faults in the two graph lookups and in audit storage, and clocks and ids. */
  datatype Surroundings = Surroundings(
    fxPenalty: real, features: Features, deviceFault: bool, ipFault: bool, auditFault: bool, stamp: string)

  datatype Response = Response(
    transactionId: string, decision: Action, score: real, quality: real, calibration: string,
    recorded: bool, stamp: string)

  datatype Record = Record(hash: RequestHash, payload: Response)

  datatype Webhook = Webhook(transactionId: string, decision: Action, score: real)

  type RecordKey = (string, string)

  datatype Service = Service(
    records: map<RecordKey, Record>, store: Store, snapshots: map<string, Snapshot>, webhooks: seq<Webhook>,
    registry: Registry)

  datatype Outcome = Forbidden | Conflict | Answer(payload: Response)

  // ----- one evaluation, past the idempotency check

  function CreatedEvent(q: Request): Event {
    Event("evt_" + q.transactionId + "_created", "transaction.created", q.transactionId, q.merchantId, q.timestamp,
          q.accountToken, q.deviceToken, q.ipToken, q.instrumentToken, Some(q.amount), Some(q.currency))
  }

  function Credit(token: Option<string>, points: real): real {
    if Present(token).Some? then points else 0.0
  }

  function EvidenceQuality(q: Request, penalty: real): real {
    var quality := 0.25 + Credit(q.deviceToken, 0.15) + Credit(q.ipToken, 0.15) + Credit(q.accountToken, 0.15)
      + Credit(q.instrumentToken, 0.10) - penalty;
    Round2(Max(0.0, Min(1.0, quality)))
  }

  /** The graph is asked only about tokens the request carries, as of the request's time. */
  ghost function GraphAnswer(
    exp: real -> real, g: Graph, kind: EntityKind, token: Option<string>, cut: Time, fault: bool)
    : DecisionReplay.Lookup
    requires IsExp(exp)
  {
    if Present(token).None? then NoToken
    else if fault then Fault
    else AsLookup(AssessedScore(g, MakeEntityId(kind, token.value), Some(cut), GraphCurve(exp)))
  }

  /** A score in ten-thousandths. */
  function AsLookup(points: int): DecisionReplay.Lookup { Risk(points as real / 10000.0) }

  ghost function DeviceAnswer(exp: real -> real, g: Graph, q: Request, env: Surroundings): DecisionReplay.Lookup
    requires IsExp(exp)
  {
    GraphAnswer(exp, g, Device, q.deviceToken, q.timestamp, env.deviceFault)
  }

  /** After a fault on the device the address is not asked about any more. */
  ghost function IpAnswer(exp: real -> real, g: Graph, q: Request, env: Surroundings): DecisionReplay.Lookup
    requires IsExp(exp)
  {
    if DeviceAnswer(exp, g, q, env).Fault? then NoToken
    else GraphAnswer(exp, g, Ip, q.ipToken, q.timestamp, env.ipFault)
  }

  datatype Decision = Decision(base: real, score: real, quality: real, action: Action)

  function DecideWith(
    exp: real -> real, c: Config, q: Request, env: Surroundings, device: DecisionReplay.Lookup,
    ip: DecisionReplay.Lookup): Decision
    requires IsExp(exp)
  {
    var base := BaseScore(exp, c, env.features);
    var score := ScoreWithGraph(base, device, ip);
    var quality := QualityWithGraph(EvidenceQuality(q, env.fxPenalty), device, ip);
    Decision(base, score, quality, LivePolicy(score, quality, c.thresholds))
  }

  /** The decision, on the graph `g` the event has just been ingested into. */
  ghost function Decide(exp: real -> real, c: Config, q: Request, env: Surroundings, g: Graph): Decision
    requires IsExp(exp)
  {
    DecideWith(exp, c, q, env, DeviceAnswer(exp, g, q, env), IpAnswer(exp, g, q, env))
  }

  function Ingested(s: Service, q: Request): Store { Processed(s.store, CreatedEvent(q)) }

  /** The decision of a request that reaches the service in state `s`. */
  ghost function DecisionAt(exp: real -> real, s: Service, q: Request, env: Surroundings): Decision
    requires IsExp(exp)
  {
    Decide(exp, ActiveConfig(s.registry), q, env, Ingested(s, q).graph)
  }

  ghost function SnapshotAt(exp: real -> real, s: Service, q: Request, env: Surroundings): Option<Snapshot>
    requires IsExp(exp)
  {
    SnapshotOf(ActiveConfig(s.registry), q, env, DecisionAt(exp, s, q, env))
  }

  /** The snapshot of a decision; a manual hold cannot be stored. */
  function SnapshotOf(c: Config, q: Request, env: Surroundings, d: Decision): Option<Snapshot> {
    if env.auditFault || AsRecommended(d.action).None? then None
    else Some(Snapshot(q.transactionId, q.merchantId, SnapshotValues(env.features), c.version, d.quality, d.score,
                       AsRecommended(d.action).value))
  }

  function HasKey(key: Option<string>): bool { Present(key).Some? }

  /** Snapshot, response, webhook and record of a decision, on top of what was ingested. */
  function Finished(s: Service, c: Config, q: Request, key: Option<string>, env: Surroundings, d: Decision)
    : (Service, Response)
  {
    var snap := SnapshotOf(c, q, env, d);
    var answer := Response(q.transactionId, d.action, d.score, d.quality, c.version, snap.Some?, env.stamp);
    (s.(records := if HasKey(key) then s.records[(q.merchantId, key.value) := Record(RequestHash(q), answer)]
                   else s.records,
        snapshots := if snap.Some? then s.snapshots[q.transactionId := snap.value] else s.snapshots,
        webhooks := s.webhooks + [Webhook(q.transactionId, d.action, d.score)]),
     answer)
  }

  ghost function Fresh(exp: real -> real, s: Service, q: Request, key: Option<string>, env: Surroundings)
    : (Service, Response)
    requires IsExp(exp)
  {
    Finished(s.(store := Ingested(s, q)), ActiveConfig(s.registry), q, key, env, DecisionAt(exp, s, q, env))
  }

  predicate Known(s: Service, q: Request, key: Option<string>) {
    HasKey(key) && (q.merchantId, key.value) in s.records
  }

  /** Ownership, then the idempotency check, then the evaluation. */
  ghost function Evaluate(exp: real -> real, s: Service, q: Request, key: Option<string>, owner: bool, env: Surroundings)
    : (Service, Outcome)
    requires IsExp(exp)
  {
    if !owner then (s, Forbidden)
    else if Known(s, q, key) then
      var record := s.records[(q.merchantId, key.value)];
      (s, if record.hash != RequestHash(q) then Conflict else Answer(record.payload))
    else
      var (t, answer) := Fresh(exp, s, q, key, env);
      (t, Answer(answer))
  }

  // ----- runs: evaluations, registry operations and changes by those who hold a configuration

  datatype Step =
    | Call(request: Request, key: Option<string>, owner: bool, env: Surroundings)
    | Manage(action: ChangedConfigs.Action)

  ghost function Next(exp: real -> real, s: Service, step: Step): Service
    requires IsExp(exp)
  {
    match step
    case Call(q, key, owner, env) => Evaluate(exp, s, q, key, owner, env).0
    case Manage(action) => s.(registry := ChangedConfigs.Acted(s.registry, action))
  }

  ghost function Run(exp: real -> real, s: Service, steps: seq<Step>): Service
    requires IsExp(exp)
  {
    if steps == [] then s else Next(exp, Run(exp, s, steps[..|steps| - 1]), steps[|steps| - 1])
  }

  /** The answer to step `i` of a run. */
  ghost function OutcomeAt(exp: real -> real, s: Service, steps: seq<Step>, i: nat): Outcome
    requires IsExp(exp) && i < |steps| && steps[i].Call?
  {
    var c := steps[i];
    Evaluate(exp, Run(exp, s, steps[..i]), c.request, c.key, c.owner, c.env).1
  }

  // ----- idempotency

  /** A record is written once: no later step changes or removes it. */
  lemma {:induction false} RecordsPersist(exp: real -> real, s: Service, steps: seq<Step>, k: RecordKey)
    requires IsExp(exp) && k in s.records
    ensures k in Run(exp, s, steps).records && Run(exp, s, steps).records[k] == s.records[k]
  {
    if steps == [] {
    } else {
      RecordsPersist(exp, s, steps[..|steps| - 1], k);
    }
  }

  lemma {:induction false} RunSplits(exp: real -> real, s: Service, a: seq<Step>, b: seq<Step>)
    requires IsExp(exp)
    ensures Run(exp, s, a + b) == Run(exp, Run(exp, s, a), b)
    decreases |b|
  {
    if b == [] {
      assert a + b == a;
    } else {
      assert (a + b)[..|a + b| - 1] == a + b[..|b| - 1];
      RunSplits(exp, s, a, b[..|b| - 1]);
    }
  }

  /** An answered call leaves its answer on record. */
  lemma AnswerIsRecorded(exp: real -> real, s: Service, q: Request, key: Option<string>, owner: bool, env: Surroundings)
    requires IsExp(exp) && HasKey(key)
    requires Evaluate(exp, s, q, key, owner, env).1.Answer?
    ensures var k := (q.merchantId, key.value);
      var t := Evaluate(exp, s, q, key, owner, env);
      k in t.0.records && t.0.records[k] == Record(RequestHash(q), t.1.payload)
  {
  }

  lemma KnownCallChangesNothing(
    exp: real -> real, s: Service, q: Request, key: Option<string>, owner: bool, env: Surroundings)
    requires IsExp(exp) && Known(s, q, key)
    ensures Evaluate(exp, s, q, key, owner, env).0 == s
  {
  }

  /** Once a key of a merchant has an answer, every later call under it, in any run, gets
      that same answer if the request is the same and a conflict if it is not, whatever the
      surroundings; and it leaves graph, events, snapshots, webhooks, records and registry
      as they were. */
  lemma SameKeySameAnswer(exp: real -> real, s: Service, steps: seq<Step>, i: nat, j: nat)
    requires IsExp(exp) && i < j < |steps| && steps[i].Call? && steps[j].Call?
    requires HasKey(steps[i].key) && steps[j].key == steps[i].key
    requires steps[j].request.merchantId == steps[i].request.merchantId
    requires OutcomeAt(exp, s, steps, i).Answer? && steps[j].owner
    ensures OutcomeAt(exp, s, steps, j) ==
            if steps[j].request == steps[i].request then OutcomeAt(exp, s, steps, i) else Conflict
    ensures Run(exp, s, steps[..j + 1]) == Run(exp, s, steps[..j])
  {
    hide Fresh, IsExp;
    var a, c := steps[i], steps[j];
    var k := (a.request.merchantId, a.key.value);
    var before := Run(exp, s, steps[..i]);
    AnswerIsRecorded(exp, before, a.request, a.key, a.owner, a.env);
    assert steps[..i + 1][..i] == steps[..i];
    var after := Run(exp, s, steps[..i + 1]);
    assert steps[..j] == steps[..i + 1] + steps[i + 1..j];
    RunSplits(exp, s, steps[..i + 1], steps[i + 1..j]);
    RecordsPersist(exp, after, steps[i + 1..j], k);
    var at := Run(exp, s, steps[..j]);
    assert Known(at, c.request, c.key);
    KnownCallChangesNothing(exp, at, c.request, c.key, c.owner, c.env);
    assert steps[..j + 1][..j] == steps[..j];
  }

  // ----- replay of what was saved

  lemma FourDigits(a: real, b: real)
    ensures Round4(Abs(Round4(a) - Round4(b))) == Abs(Round4(a) - Round4(b))
  {
    var m, n := RoundHalfEven(a * 10000.0), RoundHalfEven(b * 10000.0);
    var d := if m >= n then m - n else n - m;
    assert Abs(Round4(a) - Round4(b)) == d as real / 10000.0;
    assert d as real / 10000.0 * 10000.0 == d as real;
    RoundOfInteger(d);
  }

  lemma RoundTwice(a: real)
    ensures Round4(Round4(a)) == Round4(a)
  {
    RoundOfInteger(RoundHalfEven(a * 10000.0));
    assert Round4(a) * 10000.0 == RoundHalfEven(a * 10000.0) as real;
  }

  ghost predicate IsFourDigits(x: real) { Round4(x) == x }

  /** A lookup that cannot raise the score: too low to count, or no higher when rounded. */
  predicate Silent(base: real, l: DecisionReplay.Lookup) {
    l.Risk? ==> l.score <= 0.20 || Round4(l.score) <= base
  }

  lemma RaiseFacts(base: real, risk: real)
    requires IsFourDigits(base)
    ensures IsFourDigits(Raise(base, risk)) && Raise(base, risk) >= base
    ensures Raise(base, risk) == base <==> risk <= 0.20 || Round4(risk) <= base
  {
    RoundTwice(Max(base, risk));
    Round4Monotone(base, Max(base, risk));
    if risk >= base {
      assert Max(base, risk) == risk;
    } else {
      Round4Monotone(risk, base);
    }
  }

  /** The graph leaves the score alone exactly when every lookup that was reached is silent. */
  lemma NotRaisedExactly(base: real, device: DecisionReplay.Lookup, ip: DecisionReplay.Lookup)
    requires IsFourDigits(base)
    ensures IsFourDigits(ScoreWithGraph(base, device, ip)) && ScoreWithGraph(base, device, ip) >= base
    ensures ScoreWithGraph(base, device, ip) == base <==>
            Silent(base, device) && (device.Fault? || Silent(base, ip))
  {
    if device.Risk? {
      RaiseFacts(base, device.score);
    }
    var first := if device.Risk? then Raise(base, device.score) else base;
    if ip.Risk? {
      RaiseFacts(first, ip.score);
    }
  }

  /** The configuration replay will use, after any registry operations that do not register
      the snapshot's own version again. */
  lemma ReplayFindsConfig(exp: real -> real, r: Registry, ops: seq<Operation>, s: Snapshot)
    requires IsExp(exp) && Sound(r) && s.calibration == ActiveConfig(r).version
    requires forall i | 0 <= i < |ops| :: !Reregisters(ops[i], s.calibration)
    ensures ReplayDecision(exp, After(r, ops), s) == ReplayWith(exp, ActiveConfig(r), s)
  {
    hide IsExp, ReplayWith, Sound, ActiveConfig, After, Reregisters;
    RegisteredStays(r, ops, s.calibration);
    ActiveIsRegistered(r);
  }

  lemma BaseIsFourDigits(exp: real -> real, c: Config, f: Features)
    requires IsExp(exp)
    ensures IsFourDigits(BaseScore(exp, c, f))
  {
    RoundTwice(ScorerSigmoid(exp, c.intercept + WeightedSum(c.weights, ScorerValues(f))));
  }

  /** What replaying the snapshot of decision `d` gives: its base score; a delta that is the
      amount the graph raised it by; and a match exactly when that amount is at most 0.001 and
      no threshold lies in between. */
  ghost predicate ReplaysAs(replay: Replay, d: Decision, t: Thresholds) {
    && replay.score == d.base && d.score >= d.base
    && replay.delta == d.score - d.base
    && (Some(replay.action) == AsRecommended(d.action) <==> !Crosses(d.base, d.score, d.quality, t))
    && (replay.matches <==> d.score - d.base <= 0.001 && !Crosses(d.base, d.score, d.quality, t))
    && (replay.delta == 0.0 ==> replay.matches && Some(replay.action) == AsRecommended(d.action))
  }

  lemma ReplayedWith(exp: real -> real, c: Config, q: Request, env: Surroundings, device: DecisionReplay.Lookup,
    ip: DecisionReplay.Lookup)
    requires IsExp(exp)
    requires SnapshotOf(c, q, env, DecideWith(exp, c, q, env, device, ip)).Some?
    ensures var d := DecideWith(exp, c, q, env, device, ip);
      ReplaysAs(ReplayWith(exp, c, SnapshotOf(c, q, env, d).value), d, c.thresholds)
  {
    hide IsExp, WeightedSum, ScorerValues, SnapshotValues, ScorerSigmoid, ScoreWithGraph, LivePolicy, ReplayPolicy,
      EvidenceQuality, QualityWithGraph, ReplayScore, Round4, BaseScore, Crosses;
    var d := DecideWith(exp, c, q, env, device, ip);
    ReplayedScoreIsBase(exp, c, env.features);
    BaseIsFourDigits(exp, c, env.features);
    NotRaisedExactly(d.base, device, ip);
    FourDigits(d.base, d.score);
    PoliciesAgree(d.score, d.quality, c.thresholds);
    SamePolicyExactly(d.base, d.score, d.quality, c.thresholds);
    NothingCrossed(d.base, d.quality, c.thresholds);
  }

  lemma NothingCrossed(base: real, quality: real, t: Thresholds)
    ensures !Crosses(base, base, quality, t)
  {
  }

  /** Replaying a saved snapshot, after any registry operations that leave its version alone,
      reproduces the score exactly when the graph had not raised it, and matches exactly when
      it had raised it by at most 0.001 without crossing a threshold. */
  lemma SavedSnapshotReplays(
    exp: real -> real, s: Service, q: Request, env: Surroundings, ops: seq<Operation>)
    requires IsExp(exp) && Sound(s.registry) && SnapshotAt(exp, s, q, env).Some?
    requires forall i | 0 <= i < |ops| :: !Reregisters(ops[i], ActiveConfig(s.registry).version)
    ensures var c, d := ActiveConfig(s.registry), DecisionAt(exp, s, q, env);
      var replay := ReplayDecision(exp, After(s.registry, ops), SnapshotAt(exp, s, q, env).value);
      var g := Ingested(s, q).graph;
      && ReplaysAs(replay, d, c.thresholds)
      && (replay.delta == 0.0 <==>
            Silent(d.base, DeviceAnswer(exp, g, q, env)) && Silent(d.base, IpAnswer(exp, g, q, env)))
  {
    hide *;
    var c, g := ActiveConfig(s.registry), Ingested(s, q).graph;
    var device, ip := DeviceAnswer(exp, g, q, env), IpAnswer(exp, g, q, env);
    DecisionParts(exp, s, q, env);
    SnapshotNames(c, q, env, DecisionAt(exp, s, q, env));
    ReplayFindsConfig(exp, s.registry, ops, SnapshotAt(exp, s, q, env).value);
    ReplayedWith(exp, c, q, env, device, ip);
    RaisedByLookups(exp, c, q, env, device, ip);
    NotAskedIsSilent(exp, g, q, env, DecisionAt(exp, s, q, env).base);
    DeltaMeans(ReplayDecision(exp, After(s.registry, ops), SnapshotAt(exp, s, q, env).value), DecisionAt(exp, s, q, env), c.thresholds);
  }

  lemma SnapshotNames(c: Config, q: Request, env: Surroundings, d: Decision)
    requires SnapshotOf(c, q, env, d).Some?
    ensures SnapshotOf(c, q, env, d).value.calibration == c.version
  {
    hide SnapshotValues;
  }

  lemma RaisedByLookups(
    exp: real -> real, c: Config, q: Request, env: Surroundings, device: DecisionReplay.Lookup,
    ip: DecisionReplay.Lookup)
    requires IsExp(exp)
    ensures var d := DecideWith(exp, c, q, env, device, ip);
      d.score == d.base <==> Silent(d.base, device) && (device.Fault? || Silent(d.base, ip))
  {
    BaseIsFourDigits(exp, c, env.features);
    hide IsExp, BaseScore, ScoreWithGraph, QualityWithGraph, EvidenceQuality, LivePolicy, Silent;
    NotRaisedExactly(BaseScore(exp, c, env.features), device, ip);
  }

  /** After a fault on the device the address is not asked, hence silent. */
  lemma NotAskedIsSilent(exp: real -> real, g: Graph, q: Request, env: Surroundings, base: real)
    requires IsExp(exp)
    ensures DeviceAnswer(exp, g, q, env).Fault? ==> Silent(base, IpAnswer(exp, g, q, env))
  {
    hide IsExp, GraphAnswer;
  }

  lemma DeltaMeans(replay: Replay, d: Decision, t: Thresholds)
    requires ReplaysAs(replay, d, t)
    ensures replay.delta == 0.0 <==> d.score == d.base
  {
    hide Crosses;
  }

  /** The one action replay cannot produce is never saved: a decision is on record exactly
      when audit storage worked and the policy did not hold the payment for review. */
  lemma ManualHoldNeverSaved(exp: real -> real, s: Service, q: Request, key: Option<string>, env: Surroundings)
    requires IsExp(exp)
    ensures Fresh(exp, s, q, key, env).1.recorded <==>
            !env.auditFault && Fresh(exp, s, q, key, env).1.decision != ManualHold
    ensures !Fresh(exp, s, q, key, env).1.recorded ==> Fresh(exp, s, q, key, env).0.snapshots == s.snapshots
  {
  }

  /** What happens to the registry in the steps. */
  function ActionsOf(steps: seq<Step>): seq<ChangedConfigs.Action> {
    if steps == [] then []
    else
      var before, last := ActionsOf(steps[..|steps| - 1]), steps[|steps| - 1];
      if last.Manage? then before + [last.action] else before
  }

  lemma {:induction false} RegistryOfRun(exp: real -> real, s: Service, steps: seq<Step>)
    requires IsExp(exp)
    ensures Run(exp, s, steps).registry == ChangedConfigs.AfterActions(s.registry, ActionsOf(steps))
  {
    hide IsExp, Fresh, ChangedConfigs.Acted;
    if steps == [] {
    } else {
      var n := |steps| - 1;
      RegistryOfRun(exp, s, steps[..n]);
      var before := ActionsOf(steps[..n]);
      if steps[n].Manage? {
        assert (before + [steps[n].action])[..|before|] == before;
      } else {
        EvaluationKeepsRegistry(exp, Run(exp, s, steps[..n]), steps[n]);
      }
    }
  }

  lemma EvaluationKeepsRegistry(exp: real -> real, s: Service, step: Step)
    requires IsExp(exp) && step.Call?
    ensures Next(exp, s, step).registry == s.registry
  {
  }

  /** Where a stored snapshot comes from: the last evaluation of its transaction that saved one. */
  lemma {:induction false} SnapshotOrigin(exp: real -> real, s: Service, steps: seq<Step>, id: string)
    returns (i: nat)
    requires IsExp(exp) && id !in s.snapshots && id in Run(exp, s, steps).snapshots
    ensures i < |steps| && steps[i].Call? && steps[i].request.transactionId == id
    ensures SnapshotAt(exp, Run(exp, s, steps[..i]), steps[i].request, steps[i].env)
         == Some(Run(exp, s, steps).snapshots[id])
  {
    hide IsExp, SnapshotAt, DecisionAt;
    var n := |steps| - 1;
    var before := Run(exp, s, steps[..n]);
    SavedOrKept(exp, before, steps[n], id);
    hide Next, Finished;
    if Saves(exp, before, steps[n]) && steps[n].request.transactionId == id {
      i := n;
    } else {
      i := SnapshotOrigin(exp, s, steps[..n], id);
      assert steps[..n][..i] == steps[..i];
    }
  }

  /** One step stores a new snapshot of its transaction or leaves all snapshots alone. */
  lemma SavedOrKept(exp: real -> real, s: Service, step: Step, id: string)
    requires IsExp(exp)
    ensures var t := Next(exp, s, step);
      if Saves(exp, s, step) && step.request.transactionId == id
      then id in t.snapshots && Some(t.snapshots[id]) == SnapshotAt(exp, s, step.request, step.env)
      else (id in t.snapshots <==> id in s.snapshots) && (id in s.snapshots ==> t.snapshots[id] == s.snapshots[id])
  {
    hide IsExp, DecisionAt, SnapshotOf;
  }

  ghost predicate Saves(exp: real -> real, s: Service, step: Step)
    requires IsExp(exp)
  {
    && step.Call? && step.owner && !Known(s, step.request, step.key)
    && SnapshotAt(exp, s, step.request, step.env).Some?
  }

  lemma RegistryAfter(exp: real -> real, s: Service, steps: seq<Step>, i: nat)
    requires IsExp(exp) && i <= |steps|
    ensures Run(exp, s, steps).registry
         == ChangedConfigs.AfterActions(Run(exp, s, steps[..i]).registry, ActionsOf(steps[i..]))
  {
    hide IsExp, Run, ChangedConfigs.AfterActions, ActionsOf;
    assert steps == steps[..i] + steps[i..];
    RunSplits(exp, s, steps[..i], steps[i..]);
    RegistryOfRun(exp, Run(exp, s, steps[..i]), steps[i..]);
  }

  /** Live scoring gives both configurations the same base score, and the policy the same action. */
  ghost predicate JudgesAlike(exp: real -> real, f: Config, c: Config, features: Features, quality: real)
    requires IsExp(exp)
  {
    && BaseScore(exp, f, features) == BaseScore(exp, c, features)
    && ReplayPolicy(BaseScore(exp, f, features), quality, f.thresholds)
       == ReplayPolicy(BaseScore(exp, c, features), quality, c.thresholds)
  }

  /** The replay, under any configuration `f`, of what was saved under `c`. */
  lemma ReplayUnder(exp: real -> real, f: Config, c: Config, q: Request, env: Surroundings, d: Decision)
    requires IsExp(exp) && SnapshotOf(c, q, env, d).Some?
    ensures var snap := SnapshotOf(c, q, env, d).value;
      && ReplayWith(exp, f, snap).score == BaseScore(exp, f, env.features)
      && ReplayWith(exp, f, snap).action == ReplayPolicy(BaseScore(exp, f, env.features), d.quality, f.thresholds)
      && (ReplayWith(exp, f, snap) == ReplayWith(exp, c, snap) <==> JudgesAlike(exp, f, c, env.features, d.quality))
  {
    hide IsExp, SnapshotValues, ReplayScore, ReplayPolicy, BaseScore, Round4, AsRecommended;
    ReplayedScoreIsBase(exp, f, env.features);
    ReplayedScoreIsBase(exp, c, env.features);
  }

  lemma DecisionParts(exp: real -> real, s: Service, q: Request, env: Surroundings)
    requires IsExp(exp)
    ensures var c, g := ActiveConfig(s.registry), Ingested(s, q).graph;
      && DecisionAt(exp, s, q, env) == DecideWith(exp, c, q, env, DeviceAnswer(exp, g, q, env), IpAnswer(exp, g, q, env))
      && SnapshotAt(exp, s, q, env) == SnapshotOf(c, q, env, DecisionAt(exp, s, q, env))
  {
    hide IsExp, ActiveConfig, DecideWith, SnapshotOf, DeviceAnswer, IpAnswer, Ingested;
  }

  lemma ReplayParts(exp: real -> real, c: Config, q: Request, env: Surroundings, d: Decision, later: Registry)
    requires IsExp(exp) && SnapshotOf(c, q, env, d).Some?
    ensures var snap := SnapshotOf(c, q, env, d).value;
      var replay := ReplayDecision(exp, later, snap);
      && replay == ReplayWith(exp, ConfigFor(later, c.version), snap)
      && (replay.matches <==> Round4(Abs(replay.score - d.score)) <= 0.001 && Some(replay.action) == AsRecommended(d.action))
  {
    hide IsExp, SnapshotValues, ReplayScore, ReplayPolicy, Round4, ConfigFor;
  }

  /** When a saved snapshot gives its evaluation back whatever the registry has become: exactly when
      the configuration then found under its version judges the saved features alike. */
  lemma ReplaysExactlyWhenJudgedAlike(exp: real -> real, s: Service, q: Request, env: Surroundings, later: Registry)
    requires IsExp(exp) && SnapshotAt(exp, s, q, env).Some?
    ensures var c, d, snap := ActiveConfig(s.registry), DecisionAt(exp, s, q, env), SnapshotAt(exp, s, q, env).value;
      var f := ConfigFor(later, c.version);
      var replay := ReplayDecision(exp, later, snap);
      && ReplaysAs(ReplayWith(exp, c, snap), d, c.thresholds)
      && (replay == ReplayWith(exp, c, snap) <==> JudgesAlike(exp, f, c, env.features, d.quality))
      && replay.score == BaseScore(exp, f, env.features)
      && (replay.matches <==> Round4(Abs(replay.score - d.score)) <= 0.001 && Some(replay.action) == AsRecommended(d.action))
  {
    hide *;
    var c, g, d := ActiveConfig(s.registry), Ingested(s, q).graph, DecisionAt(exp, s, q, env);
    DecisionParts(exp, s, q, env);
    ReplayedWith(exp, c, q, env, DeviceAnswer(exp, g, q, env), IpAnswer(exp, g, q, env));
    ReplayParts(exp, c, q, env, d, later);
    ReplayUnder(exp, ConfigFor(later, c.version), c, q, env, d);
  }

  // ----- what later actions leave alone

  ghost predicate Touches(a: ChangedConfigs.Action, v: string) {
    match a
    case Do(op) => Reregisters(op, v)
    case Change(version, _) => version == v
  }

  /** The version is neither registered again nor changed. */
  ghost predicate LeftAlone(actions: seq<ChangedConfigs.Action>, v: string) {
    forall i | 0 <= i < |actions| :: !Touches(actions[i], v)
  }

  lemma {:induction false} UntouchedStays(r: Registry, actions: seq<ChangedConfigs.Action>, v: string)
    requires LeftAlone(actions, v)
    ensures v in r.configs ==> ConfigFor(ChangedConfigs.AfterActions(r, actions), v) == ConfigFor(r, v)
                               && v in ChangedConfigs.AfterActions(r, actions).configs
  {
    if actions == [] {
    } else {
      var n := |actions| - 1;
      UntouchedStays(r, actions[..n], v);
      assert !Touches(actions[n], v);
      hide HashConsistent, ComputeConfigHash;
    }
  }

  /** Some configuration is stored under the active version and under every one in the history. */
  ghost predicate Backed(r: Registry) {
    r.active in r.configs && forall i | 0 <= i < |r.history| :: r.history[i] in r.configs
  }

  lemma ActionKeepsBacked(r: Registry, a: ChangedConfigs.Action)
    requires Backed(r)
    ensures Backed(ChangedConfigs.Acted(r, a))
  {
    hide HashConsistent, ComputeConfigHash;
  }

  lemma {:induction false} RunKeepsBacked(r: Registry, actions: seq<ChangedConfigs.Action>)
    requires Backed(r)
    ensures Backed(ChangedConfigs.AfterActions(r, actions))
  {
    hide Backed, ChangedConfigs.Acted;
    if actions == [] {
    } else {
      RunKeepsBacked(r, actions[..|actions| - 1]);
      ActionKeepsBacked(ChangedConfigs.AfterActions(r, actions[..|actions| - 1]), actions[|actions| - 1]);
    }
  }

  lemma StillFound(r: Registry, actions: seq<ChangedConfigs.Action>)
    requires Backed(r) && ActiveConfig(r).version == r.active
    requires LeftAlone(actions, r.active)
    ensures ConfigFor(ChangedConfigs.AfterActions(r, actions), ActiveConfig(r).version) == ActiveConfig(r)
  {
    hide ChangedConfigs.AfterActions, LeftAlone;
    UntouchedStays(r, actions, r.active);
  }

  lemma AlikeToItself(exp: real -> real, c: Config, features: Features, quality: real)
    requires IsExp(exp)
    ensures JudgesAlike(exp, c, c, features, quality)
  {
  }

  /** Over whole runs of evaluations, promotions, rollbacks, registrations and changes by those
      who hold a configuration: every snapshot the store holds at the end was saved by some
      evaluation of its transaction, and replaying it against the registry as it then is gives
      that evaluation back exactly when the configuration found under its version judges it
      alike; as it does when it was active under its own name and has been left alone since. */
  lemma ReplayAfterAnyRun(exp: real -> real, s: Service, steps: seq<Step>, id: string) returns (i: nat)
    requires IsExp(exp) && Backed(s.registry)
    requires id !in s.snapshots && id in Run(exp, s, steps).snapshots
    ensures i < |steps| && steps[i].Call? && steps[i].request.transactionId == id
    ensures var at, later := Run(exp, s, steps[..i]), Run(exp, s, steps);
      var c, d, snap := ActiveConfig(at.registry), DecisionAt(exp, at, steps[i].request, steps[i].env), later.snapshots[id];
      var f := ConfigFor(later.registry, c.version);
      var replay := ReplayDecision(exp, later.registry, snap);
      && ReplaysAs(ReplayWith(exp, c, snap), d, c.thresholds)
      && (replay == ReplayWith(exp, c, snap) <==> JudgesAlike(exp, f, c, steps[i].env.features, d.quality))
      && (c.version == at.registry.active && LeftAlone(ActionsOf(steps[i..]), c.version) ==>
            f == c && replay == ReplayWith(exp, c, snap))
  {
    hide *;
    i := SnapshotOrigin(exp, s, steps, id);
    var at, later := Run(exp, s, steps[..i]), Run(exp, s, steps);
    var q, env := steps[i].request, steps[i].env;
    var c, d := ActiveConfig(at.registry), DecisionAt(exp, at, q, env);
    ReplaysExactlyWhenJudgedAlike(exp, at, q, env, later.registry);
    RegistryOfRun(exp, s, steps[..i]);
    RunKeepsBacked(s.registry, ActionsOf(steps[..i]));
    RegistryAfter(exp, s, steps, i);
    if c.version == at.registry.active && LeftAlone(ActionsOf(steps[i..]), c.version) {
      StillFound(at.registry, ActionsOf(steps[i..]));
      AlikeToItself(exp, c, env.features, d.quality);
    }
  }
}
