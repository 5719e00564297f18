/** The logistic curve as the scorer and the replay engine each write it. */
module Logistic {
  import opened Numeric

  /** The exponent beyond which a double-precision `exp` overflows. */
  const OVERFLOW := 709.78

  ghost predicate ExpAdds(exp: real -> real, x: real, y: real) { exp(x + y) == exp(x) * exp(y) }

  /** All that is assumed of the exponential function. */
  ghost predicate IsExp(exp: real -> real) {
    && (forall x: real, y: real :: ExpAdds(exp, x, y))
    && (forall x: real :: exp(x) > 0.0 && exp(x) >= 1.0 + x)
  }

  function Inverse(e: real): real
    requires e > 0.0
  {
    1.0 / (1.0 + e)
  }

  /** The scorer: a guard against overflow, then a clamp to [0, 1]. */
  function ScorerSigmoid(exp: real -> real, z: real): real
    requires exp(-z) > 0.0
  {
    var p := if -z > OVERFLOW then (if z < 0.0 then 0.0 else 1.0) else Inverse(exp(-z));
    Max(0.0, Min(1.0, p))
  }

  /** The replay engine: cut off at -40 and 40. */
  function ReplaySigmoid(exp: real -> real, z: real): real
    requires exp(-z) > 0.0
  {
    if z < -40.0 then 0.0 else if z > 40.0 then 1.0 else Inverse(exp(-z))
  }

  /** The cross-merchant rules: the plain curve, 0 where it overflows. */
  function GraphCurve(exp: real -> real): real -> real
    requires IsExp(exp)
  {
    (z: real) => if -z > OVERFLOW then 0.0 else Inverse(exp(-z))
  }

  lemma SquareAtLeast(e: real, m: real)
    requires e >= m >= 0.0
    ensures e * e >= m * m
  {
    assert (e - m) * e >= 0.0 && (e - m) * m >= 0.0;
  }

  /** exp(40) is far above 20000; doubling the exponent squares the value. */
  lemma ExpAtForty(exp: real -> real)
    requires IsExp(exp)
    ensures exp(40.0) >= 1000000.0
  {
    assert exp(5.0) >= 6.0;
    assert ExpAdds(exp, 5.0, 5.0) && ExpAdds(exp, 10.0, 10.0) && ExpAdds(exp, 20.0, 20.0);
    SquareAtLeast(exp(5.0), 6.0);
    SquareAtLeast(exp(10.0), 36.0);
    SquareAtLeast(exp(20.0), 1296.0);
  }

  lemma ExpBeyondForty(exp: real -> real, x: real)
    requires IsExp(exp) && x >= 40.0
    ensures exp(x) >= 1000000.0
  {
    ExpAtForty(exp);
    assert ExpAdds(exp, 40.0, x - 40.0) && 40.0 + (x - 40.0) == x;
    var a, b := exp(40.0), exp(x - 40.0);
    assert b >= 1.0;
    assert a * (b - 1.0) >= 0.0;
  }

  lemma ExpOfNegative(exp: real -> real, x: real)
    requires IsExp(exp)
    ensures exp(x) * exp(-x) == 1.0
  {
    assert ExpAdds(exp, x, -x) && x + -x == 0.0;
    assert ExpAdds(exp, 0.0, 0.0) && 0.0 + 0.0 == 0.0;
    var one := exp(0.0);
    assert one * (one - 1.0) == 0.0;
  }

  lemma InverseOfLarge(e: real)
    requires e >= 1000000.0
    ensures 0.0 < Inverse(e) < 0.00001
  {
    var p := Inverse(e);
    assert p * (1.0 + e) == 1.0;
    assert p >= 0.00001 ==> p * (1.0 + e) >= 0.00001 * (1.0 + e);
  }

  lemma InverseOfSmall(e: real, big: real)
    requires e > 0.0 && big >= 1000000.0 && e * big == 1.0
    ensures 0.99999 < Inverse(e) < 1.0
  {
    assert e >= 0.000001 ==> e * big >= 0.000001 * big;
    assert e <= 0.000001;
    var p := Inverse(e);
    assert p * (1.0 + e) == 1.0;
    assert p >= 1.0 ==> p * (1.0 + e) >= 1.0 + e;
    assert p <= 0.99999 ==> p * (1.0 + e) <= 0.99999 * (1.0 + e);
  }

  lemma InverseInUnit(e: real)
    requires e > 0.0
    ensures 0.0 < Inverse(e) < 1.0
  {
    var p := Inverse(e);
    assert p * (1.0 + e) == 1.0;
    assert p >= 1.0 ==> p * (1.0 + e) >= 1.0 + e;
  }

  lemma GraphCurveInUnit(exp: real -> real)
    requires IsExp(exp)
    ensures forall z: real :: 0.0 <= GraphCurve(exp)(z) <= 1.0
  {
    forall z: real ensures 0.0 <= GraphCurve(exp)(z) <= 1.0 {
      InverseInUnit(exp(-z));
    }
  }

  lemma InverseHalf()
    ensures Inverse(1.0) == 0.5
  {
  }

  lemma InverseFalls(a: real, b: real)
    requires 0.0 < a <= b
    ensures Inverse(a) >= Inverse(b)
  {
    var p, q := Inverse(a), Inverse(b);
    assert p * (1.0 + a) == 1.0 && q * (1.0 + b) == 1.0;
    assert p < q ==> p * (1.0 + a) < q * (1.0 + a) && q * (1.0 + a) <= q * (1.0 + b);
  }

  lemma GrowsBy(a: real, b: real)
    requires a > 0.0 && b >= 1.0
    ensures a * b >= a
  {
    assert a * (b - 1.0) >= 0.0;
  }

  lemma ExpGrows(exp: real -> real, x: real, d: real)
    requires IsExp(exp) && d >= 0.0
    ensures 0.0 < exp(x) <= exp(x + d)
  {
    assert ExpAdds(exp, x, d);
    assert exp(d) >= 1.0 + d;
    GrowsBy(exp(x), exp(d));
  }

  lemma ExpRises(exp: real -> real, x: real, y: real)
    requires IsExp(exp) && x <= y
    ensures 0.0 < exp(x) <= exp(y)
  {
    ExpGrows(exp, x, y - x);
    hide IsExp;
    assert x + (y - x) == y;
    var z := x + (y - x);
    assert z == y && exp(z) == exp(y);
  }

  lemma ExpAtZero(exp: real -> real)
    requires IsExp(exp)
    ensures exp(0.0) == 1.0
  {
    assert ExpAdds(exp, 0.0, 0.0) && 0.0 + 0.0 == 0.0;
    var one := exp(0.0);
    assert one * (one - 1.0) == 0.0;
    assert one > 0.0;
    MustBeOne(one);
  }

  lemma MustBeOne(a: real)
    requires a > 0.0 && a * (a - 1.0) == 0.0
    ensures a == 1.0
  {
  }

  /** The plain curve rises from below one half to above it, and where the scorer does not
      overflow it is the scorer's. */
  lemma CurveRises(exp: real -> real, x: real, y: real)
    requires IsExp(exp) && x <= y
    ensures GraphCurve(exp)(x) <= GraphCurve(exp)(y)
    ensures GraphCurve(exp)(0.0) == 0.5
    ensures -x <= OVERFLOW ==> GraphCurve(exp)(x) == ScorerSigmoid(exp, x)
  {
    ExpAtZero(exp);
    InverseHalf();
    ExpRises(exp, -y, -x);
    InverseInUnit(exp(-x));
    InverseInUnit(exp(-y));
    InverseFalls(exp(-y), exp(-x));
    hide Inverse;
    assert -0.0 == 0.0;
  }

  lemma RoundsToZero(p: real)
    requires 0.0 <= p < 0.00005
    ensures Round4(p) == 0.0
  {
    RoundMonotone(0.0, p * 10000.0);
    RoundIsNearest(p * 10000.0);
    RoundOfInteger(0);
  }

  lemma RoundsToOne(p: real)
    requires 0.99995 < p <= 1.0
    ensures Round4(p) == 1.0
  {
    RoundIsNearest(p * 10000.0);
    RoundMonotone(p * 10000.0, 10000.0);
    RoundOfInteger(10000);
  }

  /** The two implementations differ only where four digits cannot tell. */
  lemma SigmoidsAgree(exp: real -> real, z: real)
    requires IsExp(exp)
    ensures Round4(ScorerSigmoid(exp, z)) == Round4(ReplaySigmoid(exp, z))
    ensures 0.0 <= Round4(ReplaySigmoid(exp, z)) <= 1.0 && 0.0 <= ReplaySigmoid(exp, z) <= 1.0
  {
    InverseInUnit(exp(-z));
    if z < -40.0 {
      ExpBeyondForty(exp, -z);
      InverseOfLarge(exp(-z));
      RoundsToZero(ScorerSigmoid(exp, z));
      RoundsToZero(0.0);
    } else if z > 40.0 {
      ExpBeyondForty(exp, z);
      ExpOfNegative(exp, z);
      InverseOfSmall(exp(-z), exp(z));
      RoundsToOne(ScorerSigmoid(exp, z));
      RoundsToOne(1.0);
    } else {
      RoundsToZero(0.0);
      RoundsToOne(1.0);
      Round4Monotone(0.0, ReplaySigmoid(exp, z));
      Round4Monotone(ReplaySigmoid(exp, z), 1.0);
    }
  }
}

/** Live scoring and policy, the snapshot of a decision, and its replay. */
module DecisionReplay {
  import opened Options
  import opened Numeric
  import opened Logistic
  import opened CalibrationRegistries

  /** The six component scores and the two normalised rates. */
  datatype Features = Features(
    velocity: real, retry: real, infrastructure: real, variation: real, deviation: real, sequence: real,
    deviceReuse: real, failureRate: real)

  type Values = map<string, real>

  /** The dictionary the scorer multiplies with the weights. */
  function ScorerValues(f: Features): Values {
    map["velocity_score" := f.velocity, "retry_frequency_score" := f.retry,
        "infrastructure_risk_score" := f.infrastructure, "variation_anomaly_score" := f.variation,
        "historical_deviation_score" := f.deviation, "sequence_anomaly_score" := f.sequence,
        "device_reuse_rate" := f.deviceReuse, "ip_failure_rate" := f.failureRate,
        "cross_merchant_propagated_risk" := 0.0, "historical_failure_rate" := f.failureRate]
  }

  /** The dictionary the route stores in the snapshot, computed a second time. */
  function SnapshotValues(f: Features): Values {
    map["velocity_score" := f.velocity, "retry_frequency_score" := f.retry,
        "infrastructure_risk_score" := f.infrastructure, "variation_anomaly_score" := f.variation,
        "historical_deviation_score" := f.deviation, "sequence_anomaly_score" := f.sequence,
        "device_reuse_rate" := f.deviceReuse, "ip_failure_rate" := f.failureRate,
        "cross_merchant_propagated_risk" := 0.0, "historical_failure_rate" := f.failureRate]
  }

  function ValueOf(vs: Values, key: string): real { if key in vs then vs[key] else 0.0 }

  function Times(w: real, v: real): real { w * v }

  /** The scorer: intercept plus the sum of the products. */
  function WeightedSum(ws: seq<(string, real)>, vs: Values): real {
    if ws == [] then 0.0
    else WeightedSum(ws[..|ws| - 1], vs) + Times(ws[|ws| - 1].1, ValueOf(vs, ws[|ws| - 1].0))
  }

  /** The replay engine: an accumulator that starts at the intercept. */
  function Accumulate(ws: seq<(string, real)>, vs: Values, start: real): real {
    if ws == [] then start
    else Accumulate(ws[..|ws| - 1], vs, start) + Times(ws[|ws| - 1].1, ValueOf(vs, ws[|ws| - 1].0))
  }

  lemma {:induction false} SumsAgree(ws: seq<(string, real)>, vs: Values, start: real)
    ensures Accumulate(ws, vs, start) == start + WeightedSum(ws, vs)
  {
    if ws == [] {
    } else {
      SumsAgree(ws[..|ws| - 1], vs, start);
    }
  }

  // ----- live decision

  datatype Action = Allow | Challenge | Block | ManualHold

  datatype Recommended = AllowIt | ChallengeIt | BlockIt

  /** The snapshot's action type has no manual hold: validating one fails. */
  function AsRecommended(a: Action): Option<Recommended> {
    match a
    case Allow => Some(AllowIt)
    case Challenge => Some(ChallengeIt)
    case Block => Some(BlockIt)
    case ManualHold => None
  }

  function BaseScore(exp: real -> real, c: Config, f: Features): real
    requires IsExp(exp)
  {
    Round4(ScorerSigmoid(exp, c.intercept + WeightedSum(c.weights, ScorerValues(f))))
  }

  /** What the graph lookup of one token yields. */
  datatype Lookup = NoToken | Risk(score: real) | Fault

  function Raise(score: real, risk: real): real {
    if risk > 0.20 then Round4(Max(score, risk)) else score
  }

  /** Device first, then IP; a fault ends the attempt and keeps what was raised so far. */
  function ScoreWithGraph(base: real, device: Lookup, ip: Lookup): real {
    var first := if device.Risk? then Raise(base, device.score) else base;
    if device.Fault? || !ip.Risk? then first else Raise(first, ip.score)
  }

  predicate Degraded(device: Lookup, ip: Lookup) { device.Fault? || ip.Fault? }

  function QualityWithGraph(quality: real, device: Lookup, ip: Lookup): real {
    if Degraded(device, ip) then Round2(Max(0.0, quality - 0.25)) else quality
  }

  /** `apply_decision_policy`, action part. */
  function LivePolicy(score: real, quality: real, t: Thresholds): Action {
    if score >= t.high then
      if quality >= t.evidence then Block else if score < 0.85 then Challenge else ManualHold
    else if score >= t.low then Challenge
    else Allow
  }

  // ----- replay

  datatype Snapshot = Snapshot(
    transactionId: string, merchantId: string, values: Values, calibration: string,
    quality: real, score: real, action: Recommended)

  datatype Replay = Replay(score: real, action: Recommended, delta: real, matches: bool)

  /** `decide_action` for a normal intent. */
  function DecideAction(score: real, low: real, high: real): Recommended {
    if score >= high then BlockIt else if score >= low then ChallengeIt else AllowIt
  }

  function ReplayPolicy(score: real, quality: real, t: Thresholds): Recommended {
    var a := DecideAction(score, t.low, t.high);
    if a == BlockIt && quality < t.evidence && score < 0.85 then ChallengeIt else a
  }

  function ReplayScore(exp: real -> real, c: Config, vs: Values): real
    requires IsExp(exp)
  {
    Round4(Max(ReplaySigmoid(exp, Accumulate(c.weights, vs, c.intercept)),
               ValueOf(vs, "cross_merchant_propagated_risk")))
  }

  function ReplayWith(exp: real -> real, c: Config, s: Snapshot): Replay
    requires IsExp(exp)
  {
    var score := ReplayScore(exp, c, s.values);
    var action := ReplayPolicy(score, s.quality, c.thresholds);
    var delta := Round4(Abs(score - s.score));
    Replay(score, action, delta, delta <= 0.001 && action == s.action)
  }

  /** The configuration under a version, or else the active one. */
  function ConfigFor(r: Registry, version: string): Config {
    if version in r.configs then r.configs[version] else ActiveConfig(r)
  }

  function ReplayDecision(exp: real -> real, r: Registry, s: Snapshot): Replay
    requires IsExp(exp)
  {
    ReplayWith(exp, ConfigFor(r, s.calibration), s)
  }

  /** The accumulating loop of `replay_decision`. */
  method RunReplay(exp: real -> real, c: Config, s: Snapshot) returns (r: Replay)
    requires IsExp(exp)
    ensures r == ReplayWith(exp, c, s)
  {
    var linearSum := c.intercept;
    for i := 0 to |c.weights|
      invariant linearSum == Accumulate(c.weights[..i], s.values, c.intercept)
    {
      assert c.weights[..i + 1][..i] == c.weights[..i];
      linearSum := linearSum + Times(c.weights[i].1, ValueOf(s.values, c.weights[i].0));
    }
    assert c.weights[..|c.weights|] == c.weights;
    var propagated := ValueOf(s.values, "cross_merchant_propagated_risk");
    var score := Round4(Max(ReplaySigmoid(exp, linearSum), propagated));
    var action := DecideAction(score, c.thresholds.low, c.thresholds.high);
    if action == BlockIt && s.quality < c.thresholds.evidence && score < 0.85 {
      action := ChallengeIt;
    }
    var delta := Round4(Abs(score - s.score));
    r := Replay(score, action, delta, delta <= 0.001 && action == s.action);
  }

  // ----- the two implementations agree

  /** The snapshot stores exactly the values the scorer used. */
  lemma SameValues(f: Features)
    ensures SnapshotValues(f) == ScorerValues(f)
  {
  }

  lemma ReplayedScoreIsBase(exp: real -> real, c: Config, f: Features)
    requires IsExp(exp)
    ensures ReplayScore(exp, c, SnapshotValues(f)) == BaseScore(exp, c, f)
  {
    var z := c.intercept + WeightedSum(c.weights, ScorerValues(f));
    SameValues(f);
    SumsAgree(c.weights, SnapshotValues(f), c.intercept);
    SigmoidsAgree(exp, z);
    assert ValueOf(SnapshotValues(f), "cross_merchant_propagated_risk") == 0.0;
  }

  /** A replay takes the greater of the curve and the stored propagated risk. */
  lemma ReplayTakesGreater(exp: real -> real, c: Config, vs: Values)
    requires IsExp(exp)
    ensures var curve := Round4(ReplaySigmoid(exp, c.intercept + WeightedSum(c.weights, vs)));
      var stored := Round4(ValueOf(vs, "cross_merchant_propagated_risk"));
      ReplayScore(exp, c, vs) == if curve >= stored then curve else stored
  {
    SumsAgree(c.weights, vs, c.intercept);
    var z := c.intercept + WeightedSum(c.weights, vs);
    assert exp(-z) > 0.0;
    hide IsExp, WeightedSum, Accumulate, Round4, ReplaySigmoid, ValueOf;
    GreaterRounds(ReplaySigmoid(exp, z), ValueOf(vs, "cross_merchant_propagated_risk"));
  }

  lemma GreaterRounds(x: real, y: real)
    ensures Round4(Max(x, y)) == if Round4(x) >= Round4(y) then Round4(x) else Round4(y)
  {
    if x >= y { Round4Monotone(y, x); } else { Round4Monotone(x, y); }
    hide Round4;
  }

  /** Where the live policy does not hold, both policies take the same action. */
  lemma PoliciesAgree(score: real, quality: real, t: Thresholds)
    ensures AsRecommended(LivePolicy(score, quality, t)).Some? ==>
              AsRecommended(LivePolicy(score, quality, t)).value == ReplayPolicy(score, quality, t)
    ensures AsRecommended(LivePolicy(score, quality, t)).None? <==>
              score >= t.high && quality < t.evidence && score >= 0.85
  {
  }

  /** Raising a score from `base` to `score` takes it across a threshold that matters: with
      weak evidence the lower of the two, with strong evidence either. */
  predicate Crosses(base: real, score: real, quality: real, t: Thresholds) {
    if quality < t.evidence then base < Min(t.low, t.high) <= score
    else base < t.high <= score || (score < t.high && base < t.low <= score)
  }

  /** Two scores are treated alike exactly when no threshold lies between them. */
  lemma SamePolicyExactly(base: real, score: real, quality: real, t: Thresholds)
    requires base <= score && AsRecommended(LivePolicy(score, quality, t)).Some?
    ensures ReplayPolicy(base, quality, t) == ReplayPolicy(score, quality, t) <==> !Crosses(base, score, quality, t)
  {
  }
}
