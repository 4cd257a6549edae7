/**
 * RuntimeRegistry: a list of per-scene configurations and a default one.
 * The configuration for a scene is the earliest one whose SceneName field
 * equals the scene's name, or the default when none does.
 */
module RuntimeRegistries {
  import opened Wrappers

  /** What reading the field named SceneName of a configuration finds. */
  datatype SceneField =
    | NoSceneField              // the configuration type declares no such field
    | NotAString                // the field exists but does not hold a string
    | SceneString(value: Option<string>)

  /** A configuration object; id is its identity (reference equality). */
  datatype Config = Config(id: nat, sceneField: SceneField)

  datatype Registry = Registry(defaultConfig: Option<Config>, configs: seq<Config>)

  /** TryGetConfigForScene dereferences a null result when nothing matches and there is no default. */
  datatype RegistryError = NullConfig

  /** GetSceneName: the field's value as a string, or null. */
  function GetSceneName(c: Config): (r: Option<string>)
    ensures r.Some? <==> c.sceneField.SceneString? && c.sceneField.value.Some?
    ensures r.Some? ==> r == c.sceneField.value
  {
    match c.sceneField
    case SceneString(v) => v
    case _ => None
  }

  /** The position of the earliest configuration whose scene name equals the argument (null equals null). */
  function MatchIndex(configs: seq<Config>, sceneName: Option<string>): (r: Option<nat>)
    ensures r.Some? ==> r.value < |configs| && GetSceneName(configs[r.value]) == sceneName
    ensures r.Some? ==> forall j :: 0 <= j < r.value ==> GetSceneName(configs[j]) != sceneName
    ensures r.None? ==> forall j :: 0 <= j < |configs| ==> GetSceneName(configs[j]) != sceneName
  {
    if configs == [] then None
    else if GetSceneName(configs[0]) == sceneName then Some(0)
    else
      var rest := MatchIndex(configs[1..], sceneName);
      if rest.None? then None else Some(rest.value + 1)
  }

  /** GetConfigForScene: the earliest matching configuration, else the default (which may be null). */
  function GetConfigForScene(reg: Registry, sceneName: Option<string>): (r: Option<Config>)
    ensures MatchIndex(reg.configs, sceneName).Some? ==>
              r == Some(reg.configs[MatchIndex(reg.configs, sceneName).value])
    ensures MatchIndex(reg.configs, sceneName).None? ==> r == reg.defaultConfig
    ensures r.Some? && r != reg.defaultConfig ==> r.value in reg.configs && GetSceneName(r.value) == sceneName
  {
    match MatchIndex(reg.configs, sceneName)
    case Some(i) => Some(reg.configs[i])
    case None => reg.defaultConfig
  }

  /** The out value of TryGetConfigForScene, and what it returns. */
  datatype TryResult = TryResult(found: bool, config: Config)

  /** Object.Equals of a configuration with the default: reference identity, false against null. */
  predicate IsDefault(c: Config, defaultConfig: Option<Config>) {
    defaultConfig.Some? && defaultConfig.value.id == c.id
  }

  /**
   * TryGetConfigForScene as written: the out value is GetConfigForScene's
   * result, and the call returns whether that result is the default.
   */
  function TryGetConfigForScene(reg: Registry, sceneName: Option<string>): (r: Result<TryResult, RegistryError>)
    ensures r.Err? <==> GetConfigForScene(reg, sceneName).None?
    ensures r.Ok? ==> Some(r.value.config) == GetConfigForScene(reg, sceneName)
    ensures r.Ok? ==> (r.value.found <==> IsDefault(r.value.config, reg.defaultConfig))
  {
    match GetConfigForScene(reg, sceneName)
    case None => Err(NullConfig)
    case Some(c) => Ok(TryResult(IsDefault(c, reg.defaultConfig), c))
  }

  /** A registry whose configurations are distinct objects, none of them the default. */
  predicate DistinctObjects(reg: Registry) {
    && (forall i, j :: 0 <= i < j < |reg.configs| ==> reg.configs[i].id != reg.configs[j].id)
    && (reg.defaultConfig.Some? ==> forall i :: 0 <= i < |reg.configs| ==> reg.configs[i].id != reg.defaultConfig.value.id)
  }

  /**
   * TryGetConfigForScene as written returns true on the fallback to the
   * default and false when a scene configuration is found; with no match
   * and no default it throws.
   */
  lemma TryGetInverted(reg: Registry, sceneName: Option<string>)
    requires DistinctObjects(reg)
    ensures MatchIndex(reg.configs, sceneName).None? && reg.defaultConfig.Some? ==>
              TryGetConfigForScene(reg, sceneName) == Ok(TryResult(true, reg.defaultConfig.value))
    ensures MatchIndex(reg.configs, sceneName).Some? ==>
              TryGetConfigForScene(reg, sceneName).Ok? && !TryGetConfigForScene(reg, sceneName).value.found
    ensures MatchIndex(reg.configs, sceneName).None? && reg.defaultConfig.None? ==>
              TryGetConfigForScene(reg, sceneName) == Err(NullConfig)
  {
  }

  /** A configuration without a string SceneName field never matches a non-null scene name. */
  lemma NoSceneFieldNeverMatches(reg: Registry, sceneName: Option<string>, i: nat)
    requires i < |reg.configs| && !reg.configs[i].sceneField.SceneString? && sceneName.Some?
    ensures MatchIndex(reg.configs, sceneName) != Some(i)
  {
  }

  /**
   * The registry of a concrete scene: the scene's own configuration is
   * found, and TryGetConfigForScene as written reports it as not found, so
   * the initializer that applies the result only on true skips it.
   */
  lemma SceneConfigReportedMissing()
    ensures var reg := Registry(Some(Config(0, SceneString(None))), [Config(1, SceneString(Some("Level1")))]);
            && GetConfigForScene(reg, Some("Level1")) == Some(Config(1, SceneString(Some("Level1"))))
            && TryGetConfigForScene(reg, Some("Level1")) == Ok(TryResult(false, Config(1, SceneString(Some("Level1")))))
  {
    var reg := Registry(Some(Config(0, SceneString(None))), [Config(1, SceneString(Some("Level1")))]);
    assert MatchIndex(reg.configs, Some("Level1")) == Some(0);
  }

  /**
   * The evidently intended TryGetConfigForScene: true exactly when a
   * configuration other than the default was found for the scene.
   */
  function TryGetSceneConfig(reg: Registry, sceneName: Option<string>): (r: Result<TryResult, RegistryError>)
    ensures r.Err? <==> GetConfigForScene(reg, sceneName).None?
    ensures r.Ok? ==> Some(r.value.config) == GetConfigForScene(reg, sceneName)
    ensures r.Ok? ==> (r.value.found <==> !IsDefault(r.value.config, reg.defaultConfig))
  {
    match GetConfigForScene(reg, sceneName)
    case None => Err(NullConfig)
    case Some(c) => Ok(TryResult(!IsDefault(c, reg.defaultConfig), c))
  }

  /** With distinct objects, the intended TryGet returns true exactly when some configuration matches the scene. */
  lemma TryGetSceneConfigFindsScene(reg: Registry, sceneName: Option<string>)
    requires DistinctObjects(reg)
    requires reg.defaultConfig.Some? || MatchIndex(reg.configs, sceneName).Some?
    ensures TryGetSceneConfig(reg, sceneName).Ok?
    ensures TryGetSceneConfig(reg, sceneName).value.found <==> MatchIndex(reg.configs, sceneName).Some?
  {
  }
}
