/** Versioned calibration configurations, promotion and rollback. */
module CalibrationRegistries {
  import opened Options
  import opened Numeric

  datatype Thresholds = Thresholds(version: string, low: real, high: real, evidence: real)

  /** What SHA-256 is taken over. Hashing is modelled as injective: the digest is the
      canonical payload itself, with weights and intercept rounded to six digits. */
  datatype Digest = Digest(
    version: string, windowStart: string, windowEnd: string, schema: string, names: multiset<string>,
    weights: map<string, int>, intercept: int, thresholds: Thresholds, datasetHash: string, modelType: string)

  /** `weights` lists the dictionary in insertion order. */
  datatype Config = Config(
    configId: string, version: string, windowStart: string, windowEnd: string, schema: string,
    featureNames: seq<string>, weights: seq<(string, real)>, intercept: real, thresholds: Thresholds,
    datasetHash: string, modelType: string, configHash: Option<Digest>)

  function Micro(x: real): int { RoundHalfEven(x * 1000000.0) }

  function RoundedWeights(ws: seq<(string, real)>): map<string, int> {
    if ws == [] then map[] else RoundedWeights(ws[..|ws| - 1])[ws[|ws| - 1].0 := Micro(ws[|ws| - 1].1)]
  }

  function ComputeConfigHash(c: Config): Digest {
    Digest(c.version, c.windowStart, c.windowEnd, c.schema, multiset(c.featureNames), RoundedWeights(c.weights),
           Micro(c.intercept), c.thresholds, c.datasetHash, c.modelType)
  }

  predicate HashConsistent(c: Config) { c.configHash == Some(ComputeConfigHash(c)) }

  function Hashed(c: Config): Config { c.(configHash := Some(ComputeConfigHash(c))) }

  lemma HashedIsConsistent(c: Config)
    ensures HashConsistent(Hashed(c))
  {
  }

  const DEFAULT_VERSION := "calibration-heuristic-v1.0"

  const DEFAULT := Hashed(Config(
    "cal_cfg_default_heuristic", DEFAULT_VERSION, "2026-01-01T00:00:00Z", "2026-06-30T23:59:59Z",
    "v1.0",
    ["velocity_score", "retry_frequency_score", "infrastructure_risk_score", "variation_anomaly_score",
     "historical_deviation_score", "sequence_anomaly_score", "device_reuse_rate", "ip_failure_rate",
     "cross_merchant_propagated_risk", "historical_failure_rate"],
    [("velocity_score", 0.25), ("retry_frequency_score", 0.20), ("infrastructure_risk_score", 0.20),
     ("variation_anomaly_score", 0.15), ("historical_deviation_score", 0.10), ("sequence_anomaly_score", 0.10),
     ("device_reuse_rate", 0.30), ("ip_failure_rate", 0.30), ("cross_merchant_propagated_risk", 0.50),
     ("historical_failure_rate", 0.35)],
    -0.10, Thresholds("thresh-default-v1.0", 0.30, 0.70, 0.70), "heuristic_baseline_default",
    "LOGISTIC_REGRESSION", None))

  // ----- the registry as a value

  datatype Registry = Registry(configs: map<string, Config>, history: seq<string>, active: string)

  /** A registry that holds one configuration, registered and active. */
  function StartingWith(c: Config): Registry { Registry(map[c.version := c], [c.version], c.version) }

  const INITIAL := StartingWith(DEFAULT)

  datatype Operation = Register(config: Config) | Promote(version: string) | Rollback

  function Registered(r: Registry, c: Config): Registry {
    if c.configHash.Some? && c.configHash != Some(ComputeConfigHash(c)) then r
    else r.(configs := r.configs[c.version := Hashed(c)])
  }

  predicate Promotable(r: Registry, version: string) {
    version in r.configs && HashConsistent(r.configs[version])
  }

  function Top(history: seq<string>): string
    requires history != []
  {
    history[|history| - 1]
  }

  function Promoted(r: Registry, version: string): Registry {
    if !Promotable(r, version) then r
    else r.(active := version,
            history := if r.history == [] || Top(r.history) != version then r.history + [version] else r.history)
  }

  function RolledBack(r: Registry): Registry {
    if |r.history| <= 1 then r
    else r.(history := r.history[..|r.history| - 1], active := Top(r.history[..|r.history| - 1]))
  }

  function Applied(r: Registry, op: Operation): Registry {
    match op
    case Register(c) => Registered(r, c)
    case Promote(v) => Promoted(r, v)
    case Rollback => RolledBack(r)
  }

  function After(r: Registry, ops: seq<Operation>): Registry {
    if ops == [] then r else Applied(After(r, ops[..|ops| - 1]), ops[|ops| - 1])
  }

  function Lookup(r: Registry, version: string): Option<Config> {
    if version in r.configs then Some(r.configs[version]) else None
  }

  function ActiveConfig(r: Registry): Config {
    if r.active in r.configs then r.configs[r.active] else DEFAULT
  }

  // ----- the class

  /** A configuration object. Whoever holds it may change it, also once it is registered. */
  class CalibrationConfig {
    var value: Config

    constructor (value: Config)
      ensures this.value == value
    {
      this.value := value;
    }
  }

  class CalibrationRegistry {
    var configs: map<string, CalibrationConfig>
    var history: seq<string>
    var activeVersion: string
    const fallback: CalibrationConfig  // the default configuration object

    function View(): Registry
      reads this, configs.Values
    {
      Registry(map v | v in configs :: configs[v].value, history, activeVersion)
    }

    /** Some object is stored under the active version. */
    predicate Settled() reads this { activeVersion in configs }

    /** The default object is the one the process keeps; the registry stores that very object. */
    constructor (defaultConfig: CalibrationConfig)
      ensures View() == StartingWith(defaultConfig.value) && Settled()
      ensures fallback == defaultConfig && configs == map[defaultConfig.value.version := defaultConfig]
    {
      fallback := defaultConfig;
      activeVersion := defaultConfig.value.version;
      configs := map[defaultConfig.value.version := defaultConfig];
      history := [defaultConfig.value.version];
    }

    /** The object is stored under no version but the one it names. */
    predicate StoredAsNamed(config: CalibrationConfig)
      reads this, config
    {
      forall v | v in configs && configs[v] == config :: v == config.value.version
    }

    /** Check the hash it carries, set the computed one on the caller's own object and store that
        very object. Stored under another version too, it changes there as well. */
    method Register(config: CalibrationConfig) returns (ok: bool)
      modifies this`configs, config
      ensures ok <==> old(config.value).configHash.None? || HashConsistent(old(config.value))
      ensures ok ==> config.value == Hashed(old(config.value)) && configs == old(configs)[config.value.version := config]
      ensures !ok ==> config.value == old(config.value) && configs == old(configs)
      ensures old(StoredAsNamed(config)) ==> View() == Registered(old(View()), old(config.value))
      ensures old(Settled()) ==> Settled()
    {
      var computed := ComputeConfigHash(config.value);
      if config.value.configHash.Some? && config.value.configHash.value != computed {
        return false;
      }
      config.value := config.value.(configHash := Some(computed));
      configs := configs[config.value.version := config];
      return true;
    }

    method Promote(version: string) returns (ok: bool)
      modifies this`activeVersion, this`history
      ensures View() == Promoted(old(View()), version)
      ensures ok <==> Promotable(old(View()), version)
      ensures old(Settled()) ==> Settled()
    {
      if version !in configs {
        return false;
      }
      var config := configs[version];
      if config.value.configHash != Some(ComputeConfigHash(config.value)) {
        return false;
      }
      activeVersion := version;
      if history == [] || history[|history| - 1] != version {
        history := history + [version];
      }
      return true;
    }

    method RollbackToPrevious() returns (r: Option<CalibrationConfig>)
      modifies this`activeVersion, this`history
      ensures View() == RolledBack(old(View()))
      ensures r == if Settled() then Some(configs[activeVersion]) else None
    {
      if |history| > 1 {
        history := history[..|history| - 1];
        activeVersion := history[|history| - 1];
      }
      r := if activeVersion in configs then Some(configs[activeVersion]) else None;
    }

    /** The stored object itself, without a look at its hash. */
    method GetActive() returns (c: CalibrationConfig)
      ensures c == if Settled() then configs[activeVersion] else fallback
      ensures Settled() ==> c.value == ActiveConfig(View())
    {
      c := if activeVersion in configs then configs[activeVersion] else fallback;
    }

    method Get(version: string) returns (r: Option<CalibrationConfig>)
      ensures r == if version in configs then Some(configs[version]) else None
      ensures r.Some? ==> Lookup(View(), version) == Some(r.value.value)
    {
      r := if version in configs then Some(configs[version]) else None;
    }
  }

  // ----- every reachable registry

  /** A stack with the default at the bottom and no adjacent repeats, naming registered and
      hash-consistent configurations; its top is the active version. */
  ghost predicate Sound(r: Registry) {
    && r.history != [] && r.history[0] == DEFAULT_VERSION
    && (forall i | 0 <= i < |r.history| - 1 :: r.history[i] != r.history[i + 1])
    && (forall i | 0 <= i < |r.history| :: r.history[i] in r.configs)
    && (forall v | v in r.configs :: r.configs[v].version == v && HashConsistent(r.configs[v]))
    && r.active == Top(r.history)
  }

  lemma RegisterKeepsSound(r: Registry, c: Config)
    requires Sound(r)
    ensures Sound(Registered(r, c))
  {
    HashedIsConsistent(c);
    hide HashConsistent, ComputeConfigHash;
  }

  lemma PromoteKeepsSound(r: Registry, v: string)
    requires Sound(r)
    ensures Sound(Promoted(r, v))
  {
    hide HashConsistent, ComputeConfigHash;
    if Promotable(r, v) && Top(r.history) != v {
      var h := r.history + [v];
      assert forall i | 0 <= i < |r.history| :: h[i] == r.history[i];
      assert forall i | 0 <= i < |h| - 1 :: h[i] != h[i + 1];
    }
  }

  lemma RollbackKeepsSound(r: Registry)
    requires Sound(r)
    ensures Sound(RolledBack(r))
  {
    hide HashConsistent, ComputeConfigHash;
  }

  lemma StepKeepsSound(r: Registry, op: Operation)
    requires Sound(r)
    ensures Sound(Applied(r, op))
  {
    hide HashConsistent, ComputeConfigHash, Sound;
    match op
    case Register(c) => RegisterKeepsSound(r, c);
    case Promote(v) => PromoteKeepsSound(r, v);
    case Rollback => RollbackKeepsSound(r);
  }

  lemma {:induction false} RunKeepsSound(r: Registry, ops: seq<Operation>)
    requires Sound(r)
    ensures Sound(After(r, ops))
  {
    if ops == [] {
    } else {
      RunKeepsSound(r, ops[..|ops| - 1]);
      StepKeepsSound(After(r, ops[..|ops| - 1]), ops[|ops| - 1]);
    }
  }

  lemma SingletonIsSound(c: Config)
    requires HashConsistent(c) && c.version == DEFAULT.version
    ensures Sound(StartingWith(c))
  {
    hide HashConsistent, ComputeConfigHash;
  }

  lemma DefaultIsConsistent()
    ensures HashConsistent(DEFAULT)
  {
  }

  lemma InitialIsSound()
    ensures Sound(INITIAL)
  {
    DefaultIsConsistent();
    SingletonIsSound(DEFAULT);
  }

  lemma ReachableIsSound(ops: seq<Operation>)
    ensures Sound(After(INITIAL, ops))
  {
    InitialIsSound();
    RunKeepsSound(INITIAL, ops);
  }

  /** The active configuration is the one registered under its own version. */
  lemma ActiveIsRegistered(r: Registry)
    requires Sound(r)
    ensures Lookup(r, ActiveConfig(r).version) == Some(ActiveConfig(r))
  {
    hide HashConsistent;
    assert r.active == r.history[|r.history| - 1];
  }

  /** Promotion succeeds exactly for registered versions: the integrity check never fails on a
      configuration that went through `register` and was left alone since. */
  lemma PromotableExactlyWhenRegistered(ops: seq<Operation>, v: string)
    ensures Promotable(After(INITIAL, ops), v) <==> v in After(INITIAL, ops).configs
  {
    ReachableIsSound(ops);
  }

  // ----- stack discipline

  /** At no point of the run is the history shorter than at its start. */
  ghost predicate NeverBelow(r: Registry, ops: seq<Operation>) {
    forall n | 0 <= n <= |ops| :: |After(r, ops[..n]).history| >= |r.history|
  }

  lemma {:induction false} HistoryBelowUntouched(r: Registry, ops: seq<Operation>)
    requires NeverBelow(r, ops)
    ensures r.history <= After(r, ops).history
  {
    if ops == [] {
    } else {
      var n := |ops| - 1;
      forall m | 0 <= m <= n ensures |After(r, ops[..n][..m]).history| >= |r.history| {
        assert ops[..n][..m] == ops[..m];
      }
      HistoryBelowUntouched(r, ops[..n]);
      assert ops[..|ops|] == ops;
      assert |After(r, ops[..|ops|]).history| >= |r.history|;
    }
  }

  /** Rollbacks undo promotions like a stack: whenever a run returns to the height it started
      from without going below it, the history and the active version are those it started
      from, whatever was registered, promoted and rolled back in between. */
  lemma RollbacksUndoPromotions(r: Registry, ops: seq<Operation>)
    requires Sound(r) && NeverBelow(r, ops)
    requires |After(r, ops).history| == |r.history|
    ensures After(r, ops).history == r.history && After(r, ops).active == r.active
  {
    HistoryBelowUntouched(r, ops);
    RunKeepsSound(r, ops);
  }

  /** In particular a rollback exactly undoes an effective promotion, and a promotion of the
      active version is no promotion at all. */
  lemma RollbackUndoesPromotion(r: Registry, v: string)
    requires Sound(r) && Promotable(r, v)
    ensures v != r.active ==> RolledBack(Promoted(r, v)) == r
    ensures v == r.active ==> Promoted(r, v) == r
  {
    hide HashConsistent, ComputeConfigHash;
    if v != r.active {
      var h := r.history + [v];
      assert h[..|h| - 1] == r.history;
    }
  }

  predicate Reregisters(op: Operation, v: string) { op.Register? && op.config.version == v }

  /** A registered configuration stays as it is until its own version is registered again. */
  lemma {:induction false} RegisteredStays(r: Registry, ops: seq<Operation>, v: string)
    requires forall i | 0 <= i < |ops| :: !Reregisters(ops[i], v)
    ensures Lookup(After(r, ops), v) == Lookup(r, v)
  {
    if ops == [] {
    } else {
      RegisteredStays(r, ops[..|ops| - 1], v);
      assert !Reregisters(ops[|ops| - 1], v);
    }
  }
}
