/**
 * The plugin manager's configuration store: per-plugin configurations and
 * defaults held in memory, the recursive merge that completes a
 * configuration from its defaults, the light JSON-schema check, and the
 * filter for enabled plugins. Reading and writing TOML files is outside
 * the model.
 */
module ManagerConfig {
  import opened Wrappers
  import opened Values

  /**
   * The parts of a JSON-schema dictionary the check reads: `required`, and
   * each entry of `properties` with its `type` (absent when the property
   * schema has none), in dictionary order.
   */
  datatype JsonSchema = JsonSchema(required: seq<string>, properties: seq<(string, Option<string>)>)

  /** `_validate_type`: the six JSON type names map to Python types; any other name passes */
  predicate HasJsonType(v: Value, expected: string) {
    if expected == "string" then IsInstance(v, TStr)
    else if expected == "integer" then IsInstance(v, TInt)
    else if expected == "number" then IsInstance(v, TInt) || IsInstance(v, TFloat)
    else if expected == "boolean" then IsInstance(v, TBool)
    else if expected == "array" then IsInstance(v, TList)
    else if expected == "object" then IsInstance(v, TDict)
    else true
  }

  /** A type name outside the six is never reported. */
  lemma UnknownTypePasses(v: Value, expected: string)
    requires expected !in {"string", "integer", "number", "boolean", "array", "object"}
    ensures HasJsonType(v, expected)
  {
  }

  /** Python's `bool` is an `int`, so a boolean passes as an integer and as a number. */
  lemma BoolIsInteger(b: bool)
    ensures HasJsonType(VBool(b), "integer") && HasJsonType(VBool(b), "number")
    ensures !HasJsonType(VInt(0), "boolean")
  {
  }

  function RequiredMessage(f: string): string {
    "Required field '" + f + "' missing"
  }

  function TypeMessage(f: string, t: string): string {
    "Field '" + f + "' has wrong type (expected " + t + ")"
  }

  /** one error per required field absent from the configuration, in order */
  function RequiredErrors(required: seq<string>, config: Dict): (r: seq<string>)
    ensures |r| <= |required|
  {
    if required == [] then []
    else
      var f := required[|required| - 1];
      RequiredErrors(required[..|required| - 1], config) + (if f in config then [] else [RequiredMessage(f)])
  }

  /** a property is checked when its `type` is given and non-empty, and the field is present */
  predicate WrongType(p: (string, Option<string>), config: Dict) {
    p.0 in config && p.1.Some? && p.1.value != "" && !HasJsonType(config[p.0], p.1.value)
  }

  /** one error per present property whose value has the wrong type, in order */
  function PropertyErrors(properties: seq<(string, Option<string>)>, config: Dict): (r: seq<string>)
    ensures |r| <= |properties|
  {
    if properties == [] then []
    else
      var p := properties[|properties| - 1];
      PropertyErrors(properties[..|properties| - 1], config)
        + (if WrongType(p, config) then [TypeMessage(p.0, p.1.value)] else [])
  }

  /** everything `validate_plugin_config` reports against a schema */
  function SchemaErrors(schema: JsonSchema, config: Dict): seq<string> {
    RequiredErrors(schema.required, config) + PropertyErrors(schema.properties, config)
  }

  lemma {:induction false} RequiredErrorsEmpty(required: seq<string>, config: Dict)
    ensures RequiredErrors(required, config) == [] <==> forall i :: 0 <= i < |required| ==> required[i] in config
  {
    if required != [] {
      var init := required[..|required| - 1];
      RequiredErrorsEmpty(init, config);
      if forall i :: 0 <= i < |init| ==> init[i] in config {
        forall i | 0 <= i < |required| - 1 ensures required[i] in config {
          assert required[i] == init[i];
        }
      }
    }
  }

  lemma {:induction false} PropertyErrorsEmpty(properties: seq<(string, Option<string>)>, config: Dict)
    ensures PropertyErrors(properties, config) == [] <==> forall i :: 0 <= i < |properties| ==> !WrongType(properties[i], config)
  {
    if properties != [] {
      var init := properties[..|properties| - 1];
      PropertyErrorsEmpty(init, config);
      if forall i :: 0 <= i < |init| ==> !WrongType(init[i], config) {
        forall i | 0 <= i < |properties| - 1 ensures !WrongType(properties[i], config) {
          assert properties[i] == init[i];
        }
      }
    }
  }

  /**
   * A configuration passes exactly when every required field is present and
   * every present property with a type has a value of that type.
   */
  lemma SchemaErrorsEmptyIff(schema: JsonSchema, config: Dict)
    ensures SchemaErrors(schema, config) == [] <==>
      (forall i :: 0 <= i < |schema.required| ==> schema.required[i] in config) &&
      (forall i :: 0 <= i < |schema.properties| ==> !WrongType(schema.properties[i], config))
  {
    RequiredErrorsEmpty(schema.required, config);
    PropertyErrorsEmpty(schema.properties, config);
  }

  /** a missing required field is reported by name */
  lemma {:induction false} RequiredReported(required: seq<string>, config: Dict, i: nat)
    requires i < |required| && required[i] !in config
    ensures RequiredMessage(required[i]) in RequiredErrors(required, config)
  {
    var init := required[..|required| - 1];
    if i < |required| - 1 {
      assert init[i] == required[i];
      RequiredReported(init, config, i);
    }
  }

  /** `config.get("enabled", True)` taken as a truth value */
  predicate Enabled(config: Dict) {
    Truthy(Get(config, "enabled", VBool(true)))
  }

  /** Merging a base under a dictionary already merged over that base changes nothing. */
  lemma {:induction false} MergeAbsorbsBase(base: Dict, over: Dict)
    ensures Merge(base, Merge(base, over)) == Merge(base, over)
    decreases VDict(over)
  {
    var m := Merge(base, over);
    forall k | k in m ensures Merge(base, m)[k] == m[k] {
      if k in base && base[k].VDict? && m[k].VDict? {
        if k in over && over[k].VDict? {
          MergeAbsorbsBase(base[k].d, over[k].d);
        } else if k !in over {
          MergeSelf(base[k].d);
        }
      }
    }
  }

  class PluginConfigManager {
    var configs: map<string, Dict>
    var defaults: map<string, Dict>
    /** `_config_schema`: nothing in the class ever sets it */
    const configSchema: Option<JsonSchema>

    /** `__init__`: empty maps and no schema */
    constructor()
      ensures configs == map[] && defaults == map[] && configSchema == None
    {
      configs := map[];
      defaults := map[];
      configSchema := None;
    }

    /** `get_plugin_config`: an unknown plugin has the empty configuration */
    function GetPluginConfig(pluginName: string): (r: Dict)
      reads this
      ensures pluginName in configs ==> r == configs[pluginName]
      ensures pluginName !in configs ==> r == map[]
    {
      if pluginName in configs then configs[pluginName] else map[]
    }

    /** `set_plugin_config` */
    method SetPluginConfig(pluginName: string, config: Dict)
      modifies this
      ensures configs == old(configs)[pluginName := config] && defaults == old(defaults)
    {
      configs := configs[pluginName := config];
    }

    /**
     * `merge_configs`: a fresh dictionary with the keys of both; the
     * override's value wins, except that two dictionaries under one key are
     * merged recursively. The entries of the override are visited one at a
     * time in the source; their keys are distinct, so the order does not
     * matter and the merge is stated as one dictionary.
     */
    function MergeConfigs(base: Dict, over: Dict): (r: Dict)
      ensures r.Keys == base.Keys + over.Keys
      ensures forall k :: k in base && k !in over ==> r[k] == base[k]
      ensures forall k :: k in over && !(k in base && base[k].VDict? && over[k].VDict?) ==> r[k] == over[k]
      ensures forall k :: k in base && k in over && base[k].VDict? && over[k].VDict? ==>
        r[k] == VDict(Merge(base[k].d, over[k].d))
    {
      Merge(base, over)
    }

    /**
     * `validate_plugin_config`: without a schema (given or stored) nothing is
     * reported; otherwise the missing required fields, then the present
     * properties of the wrong type.
     */
    method ValidatePluginConfig(pluginName: string, config: Dict, schema: Option<JsonSchema>)
      returns (errors: seq<string>)
      ensures var s := if schema.Some? then schema else configSchema;
        errors == if s.None? then [] else SchemaErrors(s.value, config)
    {
      errors := [];
      var s := if schema.Some? then schema else configSchema;
      if s.None? {
        return;
      }
      var required := s.value.required;
      for i := 0 to |required|
        invariant errors == RequiredErrors(required[..i], config)
      {
        assert required[..i + 1][..i] == required[..i];
        if required[i] !in config {
          errors := errors + [RequiredMessage(required[i])];
        }
      }
      assert required[..|required|] == required;
      ghost var missing := errors;
      var properties := s.value.properties;
      for i := 0 to |properties|
        invariant errors == missing + PropertyErrors(properties[..i], config)
      {
        assert properties[..i + 1][..i] == properties[..i];
        var (field, expected) := properties[i];
        if field in config {
          if expected.Some? && expected.value != "" && !HasJsonType(config[field], expected.value) {
            errors := errors + [TypeMessage(field, expected.value)];
          }
        }
      }
      assert properties[..|properties|] == properties;
    }

    /** `set_default_config` */
    method SetDefaultConfig(pluginName: string, defaultConfig: Dict)
      modifies this
      ensures defaults == old(defaults)[pluginName := defaultConfig] && configs == old(configs)
    {
      defaults := defaults[pluginName := defaultConfig];
    }

    /** `get_default_config`: empty for a plugin without defaults */
    function GetDefaultConfig(pluginName: string): (r: Dict)
      reads this
      ensures pluginName in defaults ==> r == defaults[pluginName]
      ensures pluginName !in defaults ==> r == map[]
    {
      if pluginName in defaults then defaults[pluginName] else map[]
    }

    /**
     * `normalize_config`: the configuration merged over the plugin's defaults;
     * every default key is present and every non-dictionary setting the
     * configuration gives wins.
     */
    method NormalizeConfig(pluginName: string, config: Dict) returns (r: Dict)
      ensures r == Merge(GetDefaultConfig(pluginName), config)
      ensures r.Keys == GetDefaultConfig(pluginName).Keys + config.Keys
      ensures forall k :: k in config && !config[k].VDict? ==> r[k] == config[k]
      ensures forall k :: k in GetDefaultConfig(pluginName) && k !in config ==> r[k] == GetDefaultConfig(pluginName)[k]
    {
      var defaultConfig := GetDefaultConfig(pluginName);
      r := MergeConfigs(defaultConfig, config);
      assert forall k :: k in config && !config[k].VDict? ==> r[k] == config[k];
    }

    /** `get_enabled_plugins`: the configurations whose `enabled` is absent or truthy */
    method GetEnabledPlugins() returns (r: map<string, Dict>)
      ensures forall n :: n in r <==> n in configs && Enabled(configs[n])
      ensures forall n :: n in r ==> r[n] == configs[n]
    {
      r := map[];
      var todo := configs.Keys;
      while todo != {}
        invariant todo <= configs.Keys
        invariant forall n :: n in r <==> n in configs && n !in todo && Enabled(configs[n])
        invariant forall n :: n in r ==> r[n] == configs[n]
        decreases |todo|
      {
        var name :| name in todo;
        if Enabled(configs[name]) {
          r := r[name := configs[name]];
        }
        todo := todo - {name};
      }
    }

    /** `list_plugin_configs` */
    function ListPluginConfigs(): (r: set<string>)
      reads this
      ensures forall n :: n in r <==> n in configs
    {
      configs.Keys
    }

    /** `remove_plugin_config`: only that plugin's entry goes */
    method RemovePluginConfig(pluginName: string)
      modifies this
      ensures configs == old(configs) - {pluginName} && defaults == old(defaults)
    {
      if pluginName in configs {
        configs := configs - {pluginName};
      }
    }

    /** `clear_all_configs`: the defaults stay */
    method ClearAllConfigs()
      modifies this
      ensures configs == map[] && defaults == old(defaults)
    {
      configs := map[];
    }
  }

  /** Normalising an already normalised configuration changes nothing. */
  lemma NormalizeIdempotent(defaults: Dict, config: Dict)
    ensures Merge(defaults, Merge(defaults, config)) == Merge(defaults, config)
  {
    MergeAbsorbsBase(defaults, config);
  }
}
