/**
 * The unified configuration manager: one in-memory configuration holding
 * the global settings, a `file_processing` section and a reference to the
 * current plugin chain. Files are parameters: each is missing, unparsable,
 * or parsed into a dictionary; whether writing the latest file succeeds is
 * a flag.
 */
module UnifiedConfig {
  import opened Wrappers
  import opened Values

  /** The state of one TOML file on disk, as the manager finds it. */
  datatype FileState = Missing | Unparsable(error: string) | Parsed(content: Dict)

  /** The configuration every failure falls back to. */
  function EmptyConfig(): Dict {
    map["file_processing" := VDict(map[]), "plugins" := VDict(map[])]
  }

  /**
   * `load`: the latest file if it exists, else the default one (which is then
   * saved as the latest), else the empty configuration; any failure on the
   * way also gives the empty configuration.
   */
  function Loaded(latest: FileState, default: FileState, saveOk: bool): (r: Dict)
    ensures latest.Parsed? ==> r == latest.content
    ensures latest.Missing? && default.Parsed? && saveOk ==> r == default.content
  {
    match latest
    case Parsed(c) => c
    case Unparsable(_) => EmptyConfig()
    case Missing =>
      match default
      case Parsed(c) => if saveOk then c else EmptyConfig()
      case _ => EmptyConfig()
  }

  /** Whatever goes wrong while loading, the configuration is the empty one. */
  lemma FailedLoadIsEmpty(latest: FileState, default: FileState, saveOk: bool)
    requires latest.Unparsable? || (latest.Missing? && (!default.Parsed? || !saveOk))
    ensures Loaded(latest, default, saveOk) == EmptyConfig()
  {
  }

  /** `restore_default`: the default file, or the empty configuration when it is missing or unparsable. */
  function RestoredDefault(default: FileState): (r: Dict)
    ensures default.Parsed? ==> r == default.content
    ensures !default.Parsed? ==> r == EmptyConfig()
  {
    if default.Parsed? then default.content else EmptyConfig()
  }

  /**
   * `set_file_processing_config` on a value: the section is created when
   * absent and updated key by key; a section that is not a dictionary
   * raises.
   */
  function WithFileProcessing(cfg: Dict, update: Dict): (r: Result<Dict>)
  {
    var section := if "file_processing" in cfg then cfg["file_processing"] else VDict(map[]);
    if section.VDict? then Success(cfg["file_processing" := VDict(section.d + update)])
    else Failure("'file_processing' is not a dictionary")
  }

  /**
   * A loaded configuration always takes a `file_processing` update, unless
   * the file it came from holds a `file_processing` entry that is not a
   * dictionary: the fallback has an empty section.
   */
  lemma LoadedTakesFileProcessing(latest: FileState, default: FileState, saveOk: bool, update: Dict)
    requires latest.Parsed? ==> "file_processing" !in latest.content || latest.content["file_processing"].VDict?
    requires latest.Missing? && saveOk && default.Parsed? ==> "file_processing" !in default.content || default.content["file_processing"].VDict?
    ensures WithFileProcessing(Loaded(latest, default, saveOk), update).Success?
    ensures Loaded(latest, default, saveOk) == EmptyConfig() ==>
      WithFileProcessing(Loaded(latest, default, saveOk), update).value["file_processing"] == VDict(update)
  {
    var cfg := Loaded(latest, default, saveOk);
    if cfg == EmptyConfig() {
      assert cfg["file_processing"] == VDict(map[]);
      assert map[] + update == update;
    }
  }

  /** Only the given keys of the section are overwritten, and nothing else in the configuration changes. */
  lemma FileProcessingUpdate(cfg: Dict, update: Dict)
    requires "file_processing" !in cfg || cfg["file_processing"].VDict?
    ensures var r := WithFileProcessing(cfg, update);
      && r.Success?
      && r.value.Keys == cfg.Keys + {"file_processing"}
      && (forall k :: k in cfg && k != "file_processing" ==> r.value[k] == cfg[k])
      && r.value["file_processing"].VDict?
      && var old_ := if "file_processing" in cfg then cfg["file_processing"].d else map[];
         var now := r.value["file_processing"].d;
         now.Keys == old_.Keys + update.Keys
         && (forall k :: k in update ==> now[k] == update[k])
         && (forall k :: k in old_ && k !in update ==> now[k] == old_[k])
  {
  }

  /** Updating with the same keys twice is updating once. */
  lemma FileProcessingIdempotent(cfg: Dict, update: Dict)
    requires WithFileProcessing(cfg, update).Success?
    ensures WithFileProcessing(WithFileProcessing(cfg, update).value, update) == WithFileProcessing(cfg, update)
  {
    var c1 := WithFileProcessing(cfg, update).value;
    var s := if "file_processing" in cfg then cfg["file_processing"].d else map[];
    assert (s + update) + update == s + update;
    assert c1["file_processing" := VDict((s + update) + update)] == c1;
  }

  const ChainKey := "current_plugin_chain"

  /** `set_plugin_chain_reference` on a value: `None` removes the reference, a path sets it. */
  function WithChainReference(cfg: Dict, chainPath: Option<string>): (r: Result<Dict>)
  {
    var plugins := if "plugins" in cfg then cfg["plugins"] else VDict(map[]);
    if !plugins.VDict? then Failure("'plugins' is not a dictionary")
    else if chainPath.None? then Success(cfg["plugins" := VDict(plugins.d - {ChainKey})])
    else Success(cfg["plugins" := VDict(plugins.d[ChainKey := VStr(chainPath.value)])])
  }

  /** `get_plugin_chain_reference`: the stored reference, or `None`. */
  function ChainReference(cfg: Dict): (r: Result<Value>)
    ensures r.Failure? <==> "plugins" in cfg && !cfg["plugins"].VDict?
  {
    var plugins := Get(cfg, "plugins", VDict(map[]));
    if !plugins.VDict? then Failure("'plugins' is not a dictionary")
    else Success(Get(plugins.d, ChainKey, VNone))
  }

  /** Setting the reference succeeds exactly when `plugins` is absent or a dictionary, and reading it back gives what was set. */
  lemma ChainReferenceRoundTrip(cfg: Dict, chainPath: Option<string>)
    ensures WithChainReference(cfg, chainPath).Success? <==> ("plugins" !in cfg || cfg["plugins"].VDict?)
    ensures WithChainReference(cfg, chainPath).Success? ==>
      ChainReference(WithChainReference(cfg, chainPath).value)
        == Success(if chainPath.Some? then VStr(chainPath.value) else VNone)
  {
  }

  /** The rest of the configuration is untouched by the reference. */
  lemma ChainReferenceLocal(cfg: Dict, chainPath: Option<string>)
    requires WithChainReference(cfg, chainPath).Success?
    ensures var r := WithChainReference(cfg, chainPath).value;
      r.Keys == cfg.Keys + {"plugins"}
      && (forall k :: k in cfg && k != "plugins" ==> r[k] == cfg[k])
      && forall k :: k in r["plugins"].d && k != ChainKey ==> k in cfg["plugins"].d && r["plugins"].d[k] == cfg["plugins"].d[k]
  {
  }

  class UnifiedConfigManager {
    var config: Dict

    constructor()
      ensures config == map[]
    {
      config := map[];
    }

    /** `load`; returns a copy of the new configuration. */
    method Load(latest: FileState, default: FileState, saveOk: bool) returns (r: Dict)
      modifies this
      ensures config == Loaded(latest, default, saveOk) && r == config
    {
      config := Loaded(latest, default, saveOk);
      r := config;
    }

    /** `save`: the configuration written to the latest file, or the failure re-raised. */
    method Save(writeOk: bool) returns (r: Result<Dict>)
      ensures writeOk <==> r.Success?
      ensures r.Success? ==> r.value == config
    {
      if writeOk {
        r := Success(config);
      } else {
        r := Failure("Failed to save configuration");
      }
    }

    /** `import_config`: a missing or unparsable file raises and leaves the configuration as it was. */
    method ImportConfig(file: FileState) returns (r: Result<Dict>)
      modifies this
      ensures r.Success? <==> file.Parsed?
      ensures file.Parsed? ==> config == file.content && r.value == file.content
      ensures !file.Parsed? ==> config == old(config)
    {
      match file
      case Missing =>
        r := Failure("Configuration file not found");
      case Unparsable(e) =>
        r := Failure(e);
      case Parsed(c) =>
        config := c;
        r := Success(c);
    }

    /** `restore_last` */
    method RestoreLast(latest: FileState, default: FileState, saveOk: bool) returns (r: Dict)
      modifies this
      ensures config == Loaded(latest, default, saveOk) && r == config
    {
      r := Load(latest, default, saveOk);
    }

    /** `restore_default` */
    method RestoreDefault(default: FileState) returns (r: Dict)
      modifies this
      ensures config == RestoredDefault(default) && r == config
    {
      config := RestoredDefault(default);
      r := config;
    }

    /** `set_config` */
    method SetConfig(cfg: Dict)
      modifies this
      ensures config == cfg
    {
      config := cfg;
    }

    /**
     * `get_config`: a shallow copy of the configuration; as values, the
     * model's dictionaries share nothing with the manager afterwards.
     */
    method GetConfig() returns (r: Dict)
      ensures r == config
    {
      r := config;
    }

    /** `set_file_processing_config` */
    method SetFileProcessingConfig(update: Dict) returns (r: Result<()>)
      modifies this
      ensures r.Success? <==> WithFileProcessing(old(config), update).Success?
      ensures r.Success? ==> config == WithFileProcessing(old(config), update).value
      ensures r.Failure? ==> config == old(config)
    {
      match WithFileProcessing(config, update)
      case Success(c) =>
        config := c;
        r := Success(());
      case Failure(e) =>
        r := Failure(e);
    }

    /** `set_plugin_chain_reference` */
    method SetPluginChainReference(chainPath: Option<string>) returns (r: Result<()>)
      modifies this
      ensures r.Success? <==> WithChainReference(old(config), chainPath).Success?
      ensures r.Success? ==> config == WithChainReference(old(config), chainPath).value
      ensures r.Failure? ==> config == old(config)
    {
      match WithChainReference(config, chainPath)
      case Success(c) =>
        config := c;
        r := Success(());
      case Failure(e) =>
        r := Failure(e);
    }

    /** `get_plugin_chain_reference` */
    method GetPluginChainReference() returns (r: Result<Value>)
      ensures r == ChainReference(config)
      ensures r.Success? && "plugins" in config ==> r.value == Get(config["plugins"].d, ChainKey, VNone)
    {
      r := ChainReference(config);
    }
  }
}
