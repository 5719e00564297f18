/** What the linear score of the default configuration is, and which way every score moves. */
module LinearScore {
  import opened Numeric
  import opened Logistic
  import opened CalibrationRegistries
  import opened DecisionReplay

  lemma SumNext(ws: seq<(string, real)>, name: string, w: real, vs: Values)
    ensures WeightedSum(ws + [(name, w)], vs) == WeightedSum(ws, vs) + Times(w, ValueOf(vs, name))
  {
    assert (ws + [(name, w)])[..|ws|] == ws;
    hide Times;
  }

  /** The value of each feature of a session under its own name. */
  lemma ValuesByName(f: Features)
    ensures var vs := ScorerValues(f);
      && ValueOf(vs, "velocity_score") == f.velocity && ValueOf(vs, "retry_frequency_score") == f.retry
      && ValueOf(vs, "infrastructure_risk_score") == f.infrastructure
      && ValueOf(vs, "variation_anomaly_score") == f.variation
      && ValueOf(vs, "historical_deviation_score") == f.deviation
      && ValueOf(vs, "sequence_anomaly_score") == f.sequence
      && ValueOf(vs, "device_reuse_rate") == f.deviceReuse && ValueOf(vs, "ip_failure_rate") == f.failureRate
      && ValueOf(vs, "cross_merchant_propagated_risk") == 0.0
      && ValueOf(vs, "historical_failure_rate") == f.failureRate
  {
  }

  /** The weights of the default configuration, in their order. */
  lemma DefaultWeights() returns (ws: seq<(string, real)>)
    ensures ws == DEFAULT.weights && |ws| == 10 && DEFAULT.intercept == -0.10
    ensures ws[0] == ("velocity_score", 0.25)
    ensures ws[1] == ("retry_frequency_score", 0.20)
    ensures ws[2] == ("infrastructure_risk_score", 0.20)
    ensures ws[3] == ("variation_anomaly_score", 0.15)
    ensures ws[4] == ("historical_deviation_score", 0.10)
    ensures ws[5] == ("sequence_anomaly_score", 0.10)
    ensures ws[6] == ("device_reuse_rate", 0.30)
    ensures ws[7] == ("ip_failure_rate", 0.30)
    ensures ws[8] == ("cross_merchant_propagated_risk", 0.50)
    ensures ws[9] == ("historical_failure_rate", 0.35)
  {
    hide ComputeConfigHash;
    ws := DEFAULT.weights;
  }

  lemma SumUpTo(ws: seq<(string, real)>, n: nat, vs: Values)
    requires n < |ws|
    ensures WeightedSum(ws[..n + 1], vs) == WeightedSum(ws[..n], vs) + Times(ws[n].1, ValueOf(vs, ws[n].0))
  {
    assert ws[..n + 1] == ws[..n] + [(ws[n].0, ws[n].1)];
    hide WeightedSum, Times;
    SumNext(ws[..n], ws[n].0, ws[n].1, vs);
  }

  lemma TenTerms(ws: seq<(string, real)>, vs: Values)
    requires |ws| == 10
    ensures WeightedSum(ws, vs) ==
            Times(ws[0].1, ValueOf(vs, ws[0].0)) + Times(ws[1].1, ValueOf(vs, ws[1].0))
            + Times(ws[2].1, ValueOf(vs, ws[2].0))
            + Times(ws[3].1, ValueOf(vs, ws[3].0))
            + Times(ws[4].1, ValueOf(vs, ws[4].0))
            + Times(ws[5].1, ValueOf(vs, ws[5].0))
            + Times(ws[6].1, ValueOf(vs, ws[6].0))
            + Times(ws[7].1, ValueOf(vs, ws[7].0))
            + Times(ws[8].1, ValueOf(vs, ws[8].0))
            + Times(ws[9].1, ValueOf(vs, ws[9].0))
  {
    hide WeightedSum, Times, ValueOf;
    NoTerms(vs);
    assert ws[..0] == [] && ws[..10] == ws;
    SumUpTo(ws, 0, vs);
    SumUpTo(ws, 1, vs);
    SumUpTo(ws, 2, vs);
    SumUpTo(ws, 3, vs);
    SumUpTo(ws, 4, vs);
    SumUpTo(ws, 5, vs);
    SumUpTo(ws, 6, vs);
    SumUpTo(ws, 7, vs);
    SumUpTo(ws, 8, vs);
    SumUpTo(ws, 9, vs);
  }

  lemma NoTerms(vs: Values)
    ensures WeightedSum([], vs) == 0.0
  {
  }

  /** The linear term of the default configuration, written out. */
  lemma DefaultTerm(f: Features)
    ensures DEFAULT.intercept + WeightedSum(DEFAULT.weights, ScorerValues(f)) ==
            -0.10 + 0.25 * f.velocity + 0.20 * f.retry + 0.20 * f.infrastructure + 0.15 * f.variation
            + 0.10 * f.deviation + 0.10 * f.sequence + 0.30 * f.deviceReuse + 0.30 * f.failureRate + 0.50 * 0.0
            + 0.35 * f.failureRate
  {
    hide *;
    var ws := DefaultWeights();
    TenTerms(ws, ScorerValues(f));
    ValuesByName(f);
    TimesIs(0.25, f.velocity);
    TimesIs(0.20, f.retry);
    TimesIs(0.20, f.infrastructure);
    TimesIs(0.15, f.variation);
    TimesIs(0.10, f.deviation);
    TimesIs(0.10, f.sequence);
    TimesIs(0.30, f.deviceReuse);
    TimesIs(0.30, f.failureRate);
    TimesIs(0.50, 0.0);
    TimesIs(0.35, f.failureRate);
  }

  /** A weight multiplies its value. */
  lemma TimesIs(w: real, v: real)
    ensures Times(w, v) == w * v
  {
  }

  // ----- raising a component

  /** Every component at least as high. */
  predicate AtLeast(f: Features, g: Features) {
    && f.velocity >= g.velocity && f.retry >= g.retry && f.infrastructure >= g.infrastructure
    && f.variation >= g.variation && f.deviation >= g.deviation && f.sequence >= g.sequence
    && f.deviceReuse >= g.deviceReuse && f.failureRate >= g.failureRate
  }

  lemma ValuesAtLeast(f: Features, g: Features, name: string)
    requires AtLeast(f, g)
    ensures ValueOf(ScorerValues(f), name) >= ValueOf(ScorerValues(g), name)
  {
  }

  lemma TimesRises(w: real, u: real, v: real)
    requires w >= 0.0 && u >= v
    ensures Times(w, u) >= Times(w, v)
  {
    assert w * (u - v) >= 0.0;
  }

  lemma {:induction false} SumRises(ws: seq<(string, real)>, vs: Values, us: Values)
    requires forall i | 0 <= i < |ws| :: ws[i].1 >= 0.0
    requires forall name :: ValueOf(vs, name) >= ValueOf(us, name)
    ensures WeightedSum(ws, vs) >= WeightedSum(ws, us)
  {
    if ws == [] {
    } else {
      var n := |ws| - 1;
      SumRises(ws[..n], vs, us);
      TimesRises(ws[n].1, ValueOf(vs, ws[n].0), ValueOf(us, ws[n].0));
    }
  }

  lemma SigmoidRises(exp: real -> real, x: real, y: real)
    requires IsExp(exp) && x <= y
    ensures Round4(ReplaySigmoid(exp, x)) <= Round4(ReplaySigmoid(exp, y))
  {
    InverseInUnit(exp(-x));
    InverseInUnit(exp(-y));
    ExpRises(exp, -y, -x);
    InverseFalls(exp(-y), exp(-x));
    Round4Monotone(ReplaySigmoid(exp, x), ReplaySigmoid(exp, y));
  }

  /** Under weights that are not negative, no component can lower the score by rising. */
  lemma ScoreRises(exp: real -> real, c: Config, f: Features, g: Features)
    requires IsExp(exp) && AtLeast(f, g) && forall i | 0 <= i < |c.weights| :: c.weights[i].1 >= 0.0
    ensures BaseScore(exp, c, f) >= BaseScore(exp, c, g)
  {
    forall name ensures ValueOf(ScorerValues(f), name) >= ValueOf(ScorerValues(g), name) {
      ValuesAtLeast(f, g, name);
    }
    SumRises(c.weights, ScorerValues(f), ScorerValues(g));
    var z, y := c.intercept + WeightedSum(c.weights, ScorerValues(f)), c.intercept + WeightedSum(c.weights, ScorerValues(g));
    hide IsExp, WeightedSum, ScorerValues, ScorerSigmoid, ReplaySigmoid, Round4, ValueOf;
    SigmoidsAgree(exp, z);
    SigmoidsAgree(exp, y);
    SigmoidRises(exp, y, z);
  }
}
