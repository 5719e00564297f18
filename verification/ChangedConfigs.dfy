/** What becomes of configurations whose holders change them after registration. */
module ChangedConfigs {
  import opened Options
  import opened Numeric
  import opened CalibrationRegistries

  datatype Action = Do(op: Operation) | Change(version: string, config: Config)

  /** Someone changes the object stored under a version. */
  function Changed(r: Registry, version: string, c: Config): Registry {
    if version in r.configs then r.(configs := r.configs[version := c]) else r
  }

  /** On the objects: an assignment to the stored object, by anyone, is such a change. */
  method AssignStored(registry: CalibrationRegistry, version: string, c: Config)
    requires version in registry.configs
    requires forall v | v in registry.configs && registry.configs[v] == registry.configs[version] :: v == version
    modifies registry.configs[version]
    ensures registry.View() == Changed(old(registry.View()), version, c)
  {
    registry.configs[version].value := c;
  }

  function Acted(r: Registry, a: Action): Registry {
    match a
    case Do(op) => Applied(r, op)
    case Change(version, c) => Changed(r, version, c)
  }

  function AfterActions(r: Registry, actions: seq<Action>): Registry {
    if actions == [] then r else Acted(AfterActions(r, actions[..|actions| - 1]), actions[|actions| - 1])
  }

  /** What was last registered under a version, with the hash it then got. */
  function LastRegistered(actions: seq<Action>, v: string): Option<Config> {
    if actions == [] then if v == DEFAULT_VERSION then Some(DEFAULT) else None
    else
      var before, a := LastRegistered(actions[..|actions| - 1], v), actions[|actions| - 1];
      if a.Do? && a.op.Register? && a.op.config.version == v
         && (a.op.config.configHash.None? || HashConsistent(a.op.config))
      then Some(Hashed(a.op.config)) else before
  }

  /** The changes leave the stored hash alone. */
  ghost predicate HashesKept(actions: seq<Action>) {
    forall i | 0 <= i < |actions| && actions[i].Change? ::
      var r := AfterActions(INITIAL, actions[..i]);
      actions[i].version in r.configs ==> actions[i].config.configHash == r.configs[actions[i].version].configHash
  }

  lemma {:induction false} StoredHashIsRegistered(actions: seq<Action>, v: string)
    requires HashesKept(actions)
    ensures var r := AfterActions(INITIAL, actions);
      && (v in r.configs <==> LastRegistered(actions, v).Some?)
      && (v in r.configs ==>
            r.configs[v].configHash == Some(ComputeConfigHash(LastRegistered(actions, v).value)))
  {
    hide ComputeConfigHash;
    if actions == [] {
      InitialHash();
    } else {
      var n := |actions| - 1;
      forall i | 0 <= i < n && actions[..n][i].Change?
        ensures var r := AfterActions(INITIAL, actions[..n][..i]);
          actions[..n][i].version in r.configs ==>
            actions[..n][i].config.configHash == r.configs[actions[..n][i].version].configHash
      {
        assert actions[..n][..i] == actions[..i] && actions[..n][i] == actions[i];
      }
      assert HashesKept(actions[..n]);
      StoredHashIsRegistered(actions[..n], v);
      if actions[n].Do? && actions[n].op.Register? {
        HashIgnoresHash(actions[n].op.config);
      }
    }
  }

  lemma InitialHash()
    ensures INITIAL.configs.Keys == {DEFAULT_VERSION} && INITIAL.configs[DEFAULT_VERSION] == DEFAULT
    ensures DEFAULT.configHash == Some(ComputeConfigHash(DEFAULT))
  {
    DefaultIsConsistent();
  }

  lemma HashIgnoresHash(c: Config)
    ensures ComputeConfigHash(Hashed(c)) == ComputeConfigHash(c)
  {
  }

  /** The integrity check of `promote`: whatever was registered, promoted, rolled back and
      changed before, promoting a stored version fails exactly when what its hash covers is no
      longer what was registered. */
  lemma PromotionFailsExactlyWhenChanged(actions: seq<Action>, v: string)
    requires HashesKept(actions)
    ensures var r := AfterActions(INITIAL, actions);
      Promotable(r, v) <==>
      && v in r.configs && LastRegistered(actions, v).Some?
      && ComputeConfigHash(r.configs[v]) == ComputeConfigHash(LastRegistered(actions, v).value)
  {
    hide ComputeConfigHash, AfterActions, LastRegistered, HashesKept;
    StoredHashIsRegistered(actions, v);
  }

  /** Only `promote` checks. A configuration changed while it is active is served as it is, and
      one changed while it lies below is served after a rollback. */
  lemma ChangedConfigIsServed(r: Registry, c: Config)
    requires Sound(r)
    ensures ActiveConfig(Changed(r, r.active, c)) == c
    ensures |r.history| > 1 ==>
              var below := r.history[|r.history| - 2];
              ActiveConfig(RolledBack(Changed(r, below, c))) == c
  {
    hide HashConsistent;
    assert r.active == r.history[|r.history| - 1];
  }

  // ----- what the hash covers

  /** No name is listed twice, as in a dictionary. */
  predicate NamesOnce(ws: seq<(string, real)>) {
    forall i, j | 0 <= i < j < |ws| :: ws[i].0 != ws[j].0
  }

  lemma {:induction false} RoundedWeight(ws: seq<(string, real)>, i: nat)
    requires NamesOnce(ws) && i < |ws|
    ensures ws[i].0 in RoundedWeights(ws) && RoundedWeights(ws)[ws[i].0] == RoundHalfEven(ws[i].1 * 1000000.0)
  {
    var n := |ws| - 1;
    if i < n {
      assert NamesOnce(ws[..n]);
      RoundedWeight(ws[..n], i);
    }
  }

  /** Two configurations differ in something the hash covers: a threshold, the intercept or the
      weight of some name to six digits, or the dataset, schema, features, period, version or
      model type. */
  ghost predicate Differ(c: Config, o: Config) {
    || c.thresholds != o.thresholds
    || RoundHalfEven(c.intercept * 1000000.0) != RoundHalfEven(o.intercept * 1000000.0)
    || (exists i, j :: WeightDiffers(c.weights, i, o.weights, j))
    || c.version != o.version || c.schema != o.schema || c.windowStart != o.windowStart
    || c.windowEnd != o.windowEnd || c.datasetHash != o.datasetHash || c.modelType != o.modelType
    || multiset(c.featureNames) != multiset(o.featureNames)
  }

  ghost predicate WeightDiffers(ws: seq<(string, real)>, i: nat, us: seq<(string, real)>, j: nat) {
    && NamesOnce(ws) && NamesOnce(us) && i < |ws| && j < |us| && ws[i].0 == us[j].0
    && RoundHalfEven(ws[i].1 * 1000000.0) != RoundHalfEven(us[j].1 * 1000000.0)
  }

  lemma WeightsDiffer(c: Config, o: Config, i: nat, j: nat)
    requires WeightDiffers(c.weights, i, o.weights, j)
    ensures RoundedWeights(c.weights) != RoundedWeights(o.weights)
  {
    hide RoundedWeights, RoundHalfEven;
    RoundedWeight(c.weights, i);
    RoundedWeight(o.weights, j);
  }

  lemma HashesDiffer(c: Config, o: Config)
    requires Differ(c, o)
    ensures ComputeConfigHash(c) != ComputeConfigHash(o)
  {
    hide RoundedWeights, RoundHalfEven, WeightDiffers;
    if i, j :| WeightDiffers(c.weights, i, o.weights, j) {
      WeightsDiffer(c, o, i, j);
    }
  }

  /** Promotion fails once the stored object differs in any of these from what was registered. */
  lemma ChangedContentFails(actions: seq<Action>, v: string)
    requires HashesKept(actions) && v in AfterActions(INITIAL, actions).configs
    requires LastRegistered(actions, v).Some?
    requires Differ(AfterActions(INITIAL, actions).configs[v], LastRegistered(actions, v).value)
    ensures !Promotable(AfterActions(INITIAL, actions), v)
  {
    hide *;
    PromotionFailsExactlyWhenChanged(actions, v);
    HashesDiffer(AfterActions(INITIAL, actions).configs[v], LastRegistered(actions, v).value);
  }
}
