/**
 * The plugin configuration manager that keeps the plugin chain: the
 * execution order and one configuration per plugin, read from and written
 * back into the `plugins` section of the main configuration. Files are
 * outside the model; a configuration loaded from a file is a parameter.
 */
module OrderConfig {
  import opened Wrappers
  import opened Values
  import PluginBase

  /** a list whose items are all strings, as those strings */
  function Strings(items: seq<Value>): (r: Option<seq<string>>)
    ensures r.Some? ==> |r.value| == |items|
  {
    if items == [] then Some([])
    else
      var rest := Strings(items[1..]);
      if items[0].VStr? && rest.Some? then Some([items[0].s] + rest.value) else None
  }

  /** a list of strings as list items */
  function StrValues(ss: seq<string>): (r: seq<Value>)
    ensures |r| == |ss|
  {
    if ss == [] then [] else [VStr(ss[0])] + StrValues(ss[1..])
  }

  /** Writing a string list and reading it back gives the same list. */
  lemma {:induction false} StringsRoundTrip(ss: seq<string>)
    ensures Strings(StrValues(ss)) == Some(ss)
  {
    if ss != [] {
      StringsRoundTrip(ss[1..]);
      assert StrValues(ss)[0] == VStr(ss[0]);
      assert StrValues(ss)[1..] == StrValues(ss[1..]);
      assert [ss[0]] + ss[1..] == ss;
    }
  }

  /** `main_config.get("plugins", {})`, or `None` when that is not a dictionary and `.get` would fail */
  function PluginsOf(main: Dict): Option<Dict> {
    if "plugins" !in main then Some(map[])
    else if main["plugins"].VDict? then Some(main["plugins"].d)
    else None
  }

  /** `plugins.get("order", [])`: whatever value is stored there, the empty list when absent */
  function OrderOf(plugins: Dict): Value {
    Get(plugins, "order", VList([]))
  }

  /** a stored order as a list of plugin names, or `None` when it is not a list of strings */
  function OrderNames(order: Value): Option<seq<string>> {
    if order.VList? then Strings(order.items) else None
  }

  /** the plugin configurations of a `plugins` section among the keys `ks`: dictionaries under names other than `order` */
  function LoadedFrom(plugins: Dict, ks: set<string>): (r: map<string, Dict>)
    ensures forall k :: k in r <==> k in ks && k in plugins && k != "order" && plugins[k].VDict?
  {
    map k | k in ks && k in plugins && k != "order" && plugins[k].VDict? :: plugins[k].d
  }

  /** Loading one more key of a `plugins` section adds at most that key. */
  lemma LoadedStep(plugins: Dict, done: set<string>, key: string)
    requires key in plugins
    ensures key != "order" && plugins[key].VDict? ==>
      LoadedFrom(plugins, done + {key}) == LoadedFrom(plugins, done)[key := plugins[key].d]
    ensures !(key != "order" && plugins[key].VDict?) ==>
      LoadedFrom(plugins, done + {key}) == LoadedFrom(plugins, done)
  {
  }

  lemma UnionUpdate<V>(a: map<string, V>, b: map<string, V>, k: string, v: V)
    ensures (a + b)[k := v] == a + b[k := v]
  {
  }

  /** the configurations among `names` as dictionary values */
  function ConfigValues(configs: map<string, Dict>, names: set<string>): (r: Dict)
    ensures r.Keys == names * configs.Keys
  {
    map n | n in names && n in configs :: VDict(configs[n])
  }

  lemma ConfigValuesStep(configs: map<string, Dict>, names: set<string>, n: string)
    requires n in configs
    ensures ConfigValues(configs, names + {n}) == ConfigValues(configs, names)[n := VDict(configs[n])]
  {
  }

  /** the `plugins` section after saving: the order, then every configuration, a configuration named `order` last */
  function SavedPlugins(plugins: Dict, order: Value, configs: map<string, Dict>): (r: Dict)
    ensures r.Keys == plugins.Keys + {"order"} + configs.Keys
  {
    plugins["order" := order] + ConfigValues(configs, configs.Keys)
  }

  /** the main configuration after saving, or `None` when its `plugins` entry is not a dictionary */
  function Saved(main: Dict, order: Value, configs: map<string, Dict>): Option<Dict> {
    var plugins := PluginsOf(main);
    if plugins.None? then None
    else Some(main["plugins" := VDict(SavedPlugins(plugins.value, order, configs))])
  }

  /**
   * Saving into a main configuration and loading it back restores the order
   * and every configuration, as long as no plugin is named `order`.
   */
  lemma SaveLoadRoundTrip(main: Dict, order: Value, configs: map<string, Dict>)
    requires Saved(main, order, configs).Some? && "order" !in configs
    ensures var saved := Saved(main, order, configs).value;
      var plugins := PluginsOf(saved);
      plugins.Some? && OrderOf(plugins.value) == order &&
      forall n :: n in configs ==> n in LoadedFrom(plugins.value, plugins.value.Keys) &&
                                   LoadedFrom(plugins.value, plugins.value.Keys)[n] == configs[n]
  {
    var plugins := PluginsOf(Saved(main, order, configs).value).value;
    assert plugins["order"] == order;
  }

  /**
   * A configuration saved under the name `order` overwrites the order: what
   * loads back is that configuration, which is not a list of plugin names.
   */
  lemma OrderNamedPluginClobbersOrder(main: Dict, order: Value, configs: map<string, Dict>)
    requires Saved(main, order, configs).Some? && "order" in configs
    ensures OrderOf(PluginsOf(Saved(main, order, configs).value).value) == VDict(configs["order"])
    ensures OrderNames(OrderOf(PluginsOf(Saved(main, order, configs).value).value)).None?
  {
  }

  /**
   * The save as evidently intended: loading skips the key `order`, so the
   * order is written after the configurations and a plugin named `order`
   * cannot replace it.
   */
  function SavedCorrected(main: Dict, order: Value, configs: map<string, Dict>): Option<Dict> {
    var plugins := PluginsOf(main);
    if plugins.None? then None
    else Some(main["plugins" := VDict((plugins.value + ConfigValues(configs, configs.Keys))["order" := order])])
  }

  /**
   * With the corrected save, loading back always restores the order, and
   * every configuration of a plugin not named `order`.
   */
  lemma CorrectedSaveKeepsOrder(main: Dict, order: Value, configs: map<string, Dict>)
    requires SavedCorrected(main, order, configs).Some?
    ensures var saved := SavedCorrected(main, order, configs).value;
      var plugins := PluginsOf(saved);
      plugins.Some? && OrderOf(plugins.value) == order &&
      forall n :: n in configs && n != "order" ==>
        n in LoadedFrom(plugins.value, plugins.value.Keys) && LoadedFrom(plugins.value, plugins.value.Keys)[n] == configs[n]
  {
    var plugins := PluginsOf(SavedCorrected(main, order, configs).value).value;
    assert plugins["order"] == order;
  }

  /** `config.get("enabled", True)` as `is_plugin_enabled` returns it, before any truth test */
  function EnabledValue(config: Dict): Value {
    Get(config, "enabled", VBool(true))
  }

  /** the names of `order` whose configuration is enabled, in order */
  function EnabledIn(order: seq<string>, configs: map<string, Dict>): (r: seq<string>)
    ensures |r| <= |order|
    ensures forall n :: n in r <==> n in order && Truthy(EnabledValue(if n in configs then configs[n] else map[]))
  {
    if order == [] then []
    else
      var init := order[..|order| - 1];
      var n := order[|order| - 1];
      assert order == init + [n];
      EnabledIn(init, configs)
        + (if Truthy(EnabledValue(if n in configs then configs[n] else map[])) then [n] else [])
  }

  /** A plugin without a configuration counts as enabled. */
  lemma UnconfiguredIsEnabled(order: seq<string>, configs: map<string, Dict>, n: string)
    requires n in order && n !in configs
    ensures n in EnabledIn(order, configs)
  {
  }

  /** `validate_plugin_config`: a non-dictionary fails at once; otherwise `enabled` must be present and a bool */
  function ValidatePluginConfig(pluginName: string, config: Value): (r: seq<string>)
    ensures |r| <= 1
    ensures r == [] <==> config.VDict? && "enabled" in config.d && config.d["enabled"].VBool?
  {
    if !config.VDict? then ["Plugin config must be a dictionary"]
    else if "enabled" !in config.d then ["Plugin config missing 'enabled' field"]
    else if !config.d["enabled"].VBool? then ["Plugin 'enabled' field must be boolean"]
    else []
  }

  /** `', '.join(errors)` */
  function JoinComma(errors: seq<string>): string {
    if errors == [] then ""
    else if |errors| == 1 then errors[0]
    else JoinComma(errors[..|errors| - 1]) + ", " + errors[|errors| - 1]
  }

  /** what `get_plugin_config_summary` reports for one plugin of the order */
  datatype PluginSummary = PluginSummary(enabled: Value, configKeys: set<string>)

  /** the summary entry of one plugin: its `enabled` value and the keys of its configuration */
  function EntryOf(configs: map<string, Dict>, n: string): (r: PluginSummary)
    ensures n !in configs ==> r == PluginSummary(VBool(true), {})
    ensures n in configs ==> r.configKeys == configs[n].Keys && r.enabled == EnabledValue(configs[n])
  {
    var config := if n in configs then configs[n] else map[];
    PluginSummary(EnabledValue(config), config.Keys)
  }

  datatype Summary = Summary(pluginOrder: Value, enabledPlugins: seq<string>, pluginConfigs: map<string, PluginSummary>)

  class PluginConfigManager {
    var configs: map<string, Dict>
    /** `_plugin_order`: whatever was last loaded or set, a list of plugin names when well formed */
    var order: Value
    /** `_default_configs`: nothing in the class ever adds to it */
    const defaults: map<string, Dict>

    /** `__init__`: no configurations, empty order */
    constructor()
      ensures configs == map[] && order == VList([]) && defaults == map[]
    {
      configs := map[];
      order := VList([]);
      defaults := map[];
    }

    /** `load_plugin_config` without a readable file: the stored configuration, else the default, else empty */
    function LoadPluginConfig(pluginName: string): (r: Dict)
      reads this
      ensures pluginName in configs ==> r == configs[pluginName]
      ensures pluginName !in configs && pluginName !in defaults ==> r == map[]
    {
      if pluginName in configs then configs[pluginName]
      else if pluginName in defaults then defaults[pluginName]
      else map[]
    }

    /**
     * `load_plugin_configs_from_main_config`: the order is whatever
     * `plugins.order` holds (the empty list when absent), and every
     * dictionary under another name of `plugins` becomes that plugin's
     * configuration; configurations of other plugins stay. Only a `plugins`
     * entry that is not a dictionary makes it fail, before anything changes.
     */
    method LoadFromMainConfig(main: Dict) returns (r: Result<()>)
      modifies this
      ensures r.Success? <==> PluginsOf(main).Some?
      ensures r.Success? ==> order == OrderOf(PluginsOf(main).value)
      ensures r.Success? ==> configs == old(configs) + LoadedFrom(PluginsOf(main).value, PluginsOf(main).value.Keys)
      ensures r.Failure? ==> order == old(order) && configs == old(configs)
    {
      var plugins := PluginsOf(main);
      if plugins.None? {
        return Failure("'plugins' is not a dictionary");
      }
      order := OrderOf(plugins.value);
      LoadSection(plugins.value);
      return Success(());
    }

    /** the loop of `load_plugin_configs_from_main_config` over the `plugins` section */
    method LoadSection(section: Dict)
      modifies this
      ensures configs == old(configs) + LoadedFrom(section, section.Keys) && order == old(order)
    {
      ghost var base := configs;
      ghost var done: set<string> := {};
      var todo := section.Keys;
      while todo != {}
        invariant todo <= section.Keys && done == section.Keys - todo
        invariant configs == base + LoadedFrom(section, done) && order == old(order)
        decreases |todo|
      {
        var key :| key in todo;
        LoadedStep(section, done, key);
        if key != "order" && section[key].VDict? {
          UnionUpdate(base, LoadedFrom(section, done), key, section[key].d);
          configs := configs[key := section[key].d];
        }
        todo := todo - {key};
        done := done + {key};
      }
    }

    /** `get_plugin_order`: a copy of the order; an order without `.copy()` (neither list nor dictionary) raises */
    function GetPluginOrder(): (r: Result<Value>)
      reads this
      ensures r.Success? <==> order.VList? || order.VDict?
      ensures r.Success? ==> r.value == order
    {
      if order.VList? || order.VDict? then Success(order)
      else Failure("'" + PluginBase.TypeName(TypeOf(order)) + "' object has no attribute 'copy'")
    }

    /** `get_plugin_config`: empty for a plugin without configuration */
    function GetPluginConfig(pluginName: string): (r: Dict)
      reads this
      ensures pluginName in configs ==> r == configs[pluginName]
      ensures pluginName !in configs ==> r == map[]
    {
      if pluginName in configs then configs[pluginName] else map[]
    }

    /** `set_plugin_config` */
    method SetPluginConfig(pluginName: string, config: Dict)
      modifies this
      ensures configs == old(configs)[pluginName := config] && order == old(order)
    {
      configs := configs[pluginName := config];
    }

    /** `set_plugin_order`: the new order reads back as the same list of plugin names */
    method SetPluginOrder(newOrder: seq<string>)
      modifies this
      ensures order == VList(StrValues(newOrder)) && OrderNames(order) == Some(newOrder)
      ensures configs == old(configs)
    {
      order := VList(StrValues(newOrder));
      StringsRoundTrip(newOrder);
    }

    /** `is_plugin_enabled`: `enabled` of the configuration, `True` when absent */
    function IsPluginEnabled(pluginName: string): (r: Value)
      reads this
      ensures pluginName !in configs || "enabled" !in configs[pluginName] ==> r == VBool(true)
      ensures pluginName in configs && "enabled" in configs[pluginName] ==> r == configs[pluginName]["enabled"]
    {
      EnabledValue(GetPluginConfig(pluginName))
    }

    /**
     * `get_enabled_plugins`: the order filtered by `is_plugin_enabled`,
     * order kept; refused for an order that is not a list of plugin names
     */
    method GetEnabledPlugins() returns (r: Result<seq<string>>)
      ensures r.Success? <==> OrderNames(order).Some?
      ensures r.Success? ==> r.value == EnabledIn(OrderNames(order).value, configs)
    {
      var names := OrderNames(order);
      if names.None? {
        return Failure("the plugin order is not a list of plugin names");
      }
      var enabled := EnabledOf(names.value);
      return Success(enabled);
    }

    /** the loop of `get_enabled_plugins` over a list of plugin names */
    method EnabledOf(names: seq<string>) returns (r: seq<string>)
      ensures r == EnabledIn(names, configs)
    {
      r := [];
      for i := 0 to |names|
        invariant r == EnabledIn(names[..i], configs)
      {
        assert names[..i + 1][..i] == names[..i];
        if Truthy(IsPluginEnabled(names[i])) {
          r := r + [names[i]];
        }
      }
      assert names[..|names|] == names;
    }

    /**
     * `save_plugin_configs_to_main_config`: the `plugins` section gets the
     * order and every configuration; it fails when `plugins` is there but is
     * not a dictionary.
     */
    method SaveToMainConfig(main: Dict) returns (r: Result<Dict>)
      ensures r.Success? <==> Saved(main, order, configs).Some?
      ensures r.Success? ==> r.value == Saved(main, order, configs).value
    {
      var plugins := PluginsOf(main);
      if plugins.None? {
        return Failure("'plugins' does not support item assignment");
      }
      var section := SaveSection(plugins.value["order" := order]);
      return Success(main["plugins" := VDict(section)]);
    }

    /** the loop of `save_plugin_configs_to_main_config` that writes every configuration into the section */
    method SaveSection(start: Dict) returns (section: Dict)
      ensures section == start + ConfigValues(configs, configs.Keys)
    {
      section := start;
      ghost var done: set<string> := {};
      var todo := configs.Keys;
      while todo != {}
        invariant todo <= configs.Keys && done == configs.Keys - todo
        invariant section == start + ConfigValues(configs, done)
        decreases |todo|
      {
        var name :| name in todo;
        UnionUpdate(start, ConfigValues(configs, done), name, VDict(configs[name]));
        ConfigValuesStep(configs, done, name);
        section := section[name := VDict(configs[name])];
        todo := todo - {name};
        done := done + {name};
      }
      assert done == configs.Keys;
    }

    /**
     * `import_plugin_config` once the file is read: a configuration that
     * fails validation is refused with the joined errors and nothing
     * changes; otherwise it is stored.
     */
    method ImportPluginConfig(pluginName: string, loaded: Value) returns (r: Result<Dict>)
      modifies this
      ensures r.Success? <==> ValidatePluginConfig(pluginName, loaded) == []
      ensures r.Failure? ==> r.error == "Invalid plugin configuration: " + JoinComma(ValidatePluginConfig(pluginName, loaded))
      ensures r.Failure? ==> configs == old(configs)
      ensures r.Success? ==> r.value == loaded.d && configs == old(configs)[pluginName := loaded.d]
      ensures order == old(order)
    {
      var errors := ValidatePluginConfig(pluginName, loaded);
      if errors != [] {
        return Failure("Invalid plugin configuration: " + JoinComma(errors));
      }
      SetPluginConfig(pluginName, loaded.d);
      return Success(loaded.d);
    }

    /**
     * `get_plugin_config_summary`: the order as stored, the enabled plugins,
     * and for each plugin of the order its flag and keys; refused, as
     * `get_enabled_plugins` is, for an order that is not a list of plugin names
     */
    method GetPluginConfigSummary() returns (r: Result<Summary>)
      ensures r.Success? <==> OrderNames(order).Some?
      ensures r.Success? ==> var s := r.value; var names := OrderNames(order).value;
        && s.pluginOrder == order && s.enabledPlugins == EnabledIn(names, configs)
        && (forall n :: n in s.pluginConfigs <==> n in names)
        && (forall n :: n in s.pluginConfigs ==> s.pluginConfigs[n] == EntryOf(configs, n))
    {
      var enabled := GetEnabledPlugins();
      if enabled.Failure? {
        return Failure(enabled.error);
      }
      var names := OrderNames(order).value;
      var entries: map<string, PluginSummary> := map[];
      var cs := configs;
      for i := 0 to |names|
        invariant forall n :: n in entries <==> n in names[..i]
        invariant forall n :: n in entries ==> entries[n] == EntryOf(cs, n)
      {
        assert names[..i + 1] == names[..i] + [names[i]];
        entries := entries[names[i] := EntryOf(cs, names[i])];
      }
      assert names[..|names|] == names;
      return Success(Summary(order, enabled.value, entries));
    }

    /** `reset_plugin_config`: that plugin's configuration goes */
    method ResetPluginConfig(pluginName: string)
      modifies this
      ensures configs == old(configs) - {pluginName} && order == old(order)
    {
      if pluginName in configs {
        configs := configs - {pluginName};
      }
    }

    /**
     * `reset_all_plugin_configs`: no configurations, and the order emptied
     * by its own `.clear()`; an order without one (neither list nor
     * dictionary) raises after the configurations are gone.
     */
    method ResetAllPluginConfigs() returns (r: Result<()>)
      modifies this
      ensures configs == map[]
      ensures r.Success? <==> old(order).VList? || old(order).VDict?
      ensures old(order).VList? ==> order == VList([])
      ensures old(order).VDict? ==> order == VDict(map[])
      ensures r.Failure? ==> order == old(order)
    {
      configs := map[];
      if order.VList? {
        order := VList([]);
      } else if order.VDict? {
        order := VDict(map[]);
      } else {
        return Failure("'" + PluginBase.TypeName(TypeOf(order)) + "' object has no attribute 'clear'");
      }
      return Success(());
    }
  }
}
