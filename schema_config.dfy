/**
 * The standard plugin configuration format: a schema lists the required
 * fields, the expected types and the field validators, `validate` reports
 * what a configuration breaks, `apply_defaults` completes it, and an
 * in-memory manager keeps one schema and one configuration per plugin.
 * The standard schemas of the four built-in plugins are included.
 */
module SchemaConfig {
  import opened Wrappers
  import opened Values
  import opened PluginBase
  import Seqs

  // ------------------------------------------------------------------
  // `PluginConfigSchema.validate` as written

  /** the errors of the validator loop as written: only a validator that raises is reported */
  function RaisedErrors(validators: seq<(string, Value -> Outcome)>, config: Dict): seq<ConfigError> {
    if validators == [] then []
    else
      var (f, check) := validators[|validators| - 1];
      var o := if f in config then check(config[f]) else Returned(VNone);
      RaisedErrors(validators[..|validators| - 1], config)
        + (if f in config && o.Raised? then [ValidatorRaised(f, o.message)] else [])
  }

  /** the errors `validate` collects, in order: missing fields, wrong types, raising validators */
  function Reported(schema: Schema, config: Dict): seq<ConfigError> {
    MissingErrors(schema.required, config) + TypeErrors(schema.fieldTypes, config)
      + RaisedErrors(schema.validators, config)
  }

  /** the texts of a list of errors */
  function Messages(errors: seq<ConfigError>): (r: seq<string>)
    ensures |r| == |errors|
    ensures forall i :: 0 <= i < |errors| ==> r[i] == ErrorMessage(errors[i])
  {
    if errors == [] then [] else Messages(errors[..|errors| - 1]) + [ErrorMessage(errors[|errors| - 1])]
  }

  lemma MessagesAppend(a: seq<ConfigError>, b: seq<ConfigError>)
    ensures Messages(a + b) == Messages(a) + Messages(b)
  {
    var r, ma, mb := Messages(a + b), Messages(a), Messages(b);
    forall i | 0 <= i < |a| ensures r[i] == ma[i] {
      assert (a + b)[i] == a[i];
    }
    forall j | 0 <= j < |b| ensures r[|a| + j] == mb[j] {
      assert (a + b)[|a| + j] == b[j];
    }
    Seqs.PointwiseAppend(r, ma, mb);
  }

  lemma {:induction false} RaisedErrorsEmpty(validators: seq<(string, Value -> Outcome)>, config: Dict)
    ensures RaisedErrors(validators, config) == [] <==>
      forall i :: 0 <= i < |validators| && validators[i].0 in config ==>
        !validators[i].1(config[validators[i].0]).Raised?
  {
    if validators != [] {
      var init := validators[..|validators| - 1];
      RaisedErrorsEmpty(init, config);
      if RaisedErrors(validators, config) == [] {
        forall i | 0 <= i < |validators| && validators[i].0 in config
          ensures !validators[i].1(config[validators[i].0]).Raised?
        {
          if i < |validators| - 1 {
            assert validators[i] == init[i];
          }
        }
      } else {
        var last := validators[|validators| - 1];
        if RaisedErrors(init, config) == [] {
          assert last.0 in config && last.1(config[last.0]).Raised?;
        } else {
          var j :| 0 <= j < |init| && init[j].0 in config && init[j].1(config[init[j].0]).Raised?;
          assert validators[j] == init[j];
        }
      }
    }
  }

  /**
   * A configuration passes `validate` exactly when every required field is
   * present, every present typed field has its type, and no validator of a
   * present field raises; what the validators return does not matter.
   */
  lemma ReportedEmptyIff(schema: Schema, config: Dict)
    ensures Reported(schema, config) == [] <==>
      && (forall i :: 0 <= i < |schema.required| ==> schema.required[i] in config)
      && (forall i :: 0 <= i < |schema.fieldTypes| && schema.fieldTypes[i].0 in config ==>
            IsInstance(config[schema.fieldTypes[i].0], schema.fieldTypes[i].1))
      && (forall i :: 0 <= i < |schema.validators| && schema.validators[i].0 in config ==>
            !schema.validators[i].1(config[schema.validators[i].0]).Raised?)
  {
    MissingErrorsEmpty(schema.required, config);
    TypeErrorsEmpty(schema.fieldTypes, config);
    RaisedErrorsEmpty(schema.validators, config);
  }

  /** the validator loop of `validate` */
  method CollectRaised(validators: seq<(string, Value -> Outcome)>, config: Dict) returns (errors: seq<ConfigError>)
    ensures errors == RaisedErrors(validators, config)
  {
    errors := [];
    for i := 0 to |validators|
      invariant errors == RaisedErrors(validators[..i], config)
    {
      var (f, check) := validators[i];
      assert validators[..i + 1][..i] == validators[..i];
      if f in config {
        var outcome := check(config[f]);
        if outcome.Raised? {
          errors := errors + [ValidatorRaised(f, outcome.message)];
        }
      }
    }
    assert validators[..|validators|] == validators;
  }

  /** `PluginConfigSchema.validate`: its three loops in order, each error as its text */
  method ValidateSchema(schema: Schema, config: Dict) returns (errors: seq<string>)
    ensures errors == Messages(Reported(schema, config))
  {
    var missing := CollectMissing(schema.required, config);
    var typed := CollectTypeErrors(schema.fieldTypes, config);
    var raised := CollectRaised(schema.validators, config);
    MessagesAppend(missing + typed, raised);
    MessagesAppend(missing, typed);
    errors := Messages(missing) + Messages(typed) + Messages(raised);
  }

  /** `PluginConfigSchema.apply_defaults`: a copy of the configuration with each absent default added */
  method ApplySchemaDefaults(schema: Schema, config: Dict) returns (result: Dict)
    ensures result == WithDefaults(config, schema.defaults)
  {
    result := config;
    ghost var done: set<string> := {};
    var todo := schema.defaults.Keys;
    while todo != {}
      invariant todo <= schema.defaults.Keys && done == schema.defaults.Keys - todo
      invariant result == WithDefaults(config, Restricted(schema.defaults, done))
      decreases |todo|
    {
      var field :| field in todo;
      DefaultsStep(config, schema.defaults, done, field);
      if field !in result {
        result := result[field := schema.defaults[field]];
      }
      todo := todo - {field};
      done := done + {field};
    }
    assert Restricted(schema.defaults, done) == schema.defaults;
  }

  /** One more default added to the copy: it lands only where the key is still absent. */
  lemma DefaultsStep(config: Dict, defaults: Dict, done: set<string>, field: string)
    requires field in defaults && field !in done
    ensures var prev := WithDefaults(config, Restricted(defaults, done));
      WithDefaults(config, Restricted(defaults, done + {field})) ==
        if field in prev then prev else prev[field := defaults[field]]
  {
    assert Restricted(defaults, done + {field}) == Restricted(defaults, done)[field := defaults[field]];
  }

  /** the entries of `d` under the keys `ks` */
  function Restricted(d: Dict, ks: set<string>): (r: Dict)
    ensures r.Keys == d.Keys * ks
    ensures forall k :: k in r ==> r[k] == d[k]
  {
    map k | k in d && k in ks :: d[k]
  }

  // ------------------------------------------------------------------
  // The standard schemas and the validator finding

  /** `lambda x: x > 0` applied to a configuration value */
  function Positive(v: Value): (o: Outcome)
    ensures v.VInt? ==> o == Returned(VBool(v.i > 0))
    ensures !(v.VInt? || v.VBool? || v.VFloat?) ==> o.Raised?
  {
    match v
    case VInt(i) => Returned(VBool(i > 0))
    case VBool(b) => Returned(VBool(b))
    case VFloat(f) => Returned(VBool(f > 0.0))
    case _ => Raised("'>' not supported between instances of '" + TypeName(TypeOf(v)) + "' and 'int'")
  }

  /** `get_text_cleaning_schema` */
  function TextCleaningSchema(): Schema {
    Schema(
      ["enabled"],
      {"preserve_formatting", "remove_extra_spaces", "normalize_punctuation"},
      [("enabled", TBool), ("preserve_formatting", TBool), ("remove_extra_spaces", TBool),
       ("normalize_punctuation", TBool)],
      [],
      map["enabled" := VBool(true), "preserve_formatting" := VBool(true),
          "remove_extra_spaces" := VBool(true), "normalize_punctuation" := VBool(true)])
  }

  const DefaultModelName := "oliverguhr/fullstop-punctuation-multilang-large"

  /** `get_punctuation_adder_schema` */
  function PunctuationAdderSchema(): Schema {
    Schema(
      ["enabled", "model_name"],
      {"local_models_dir", "batch_size", "max_length"},
      [("enabled", TBool), ("model_name", TStr), ("local_models_dir", TStr), ("batch_size", TInt),
       ("max_length", TInt)],
      [("batch_size", Positive), ("max_length", Positive)],
      map["enabled" := VBool(true), "model_name" := VStr(DefaultModelName),
          "local_models_dir" := VStr("models/"), "batch_size" := VInt(32), "max_length" := VInt(512)])
  }

  /** `get_sentence_splitter_schema` */
  function SentenceSplitterSchema(): Schema {
    Schema(
      ["enabled"],
      {"min_recursive_length", "max_depth", "preserve_quotes", "split_on_conjunctions"},
      [("enabled", TBool), ("min_recursive_length", TInt), ("max_depth", TInt), ("preserve_quotes", TBool),
       ("split_on_conjunctions", TBool)],
      [("min_recursive_length", Positive), ("max_depth", Positive)],
      map["enabled" := VBool(true), "min_recursive_length" := VInt(70), "max_depth" := VInt(8),
          "preserve_quotes" := VBool(true), "split_on_conjunctions" := VBool(true)])
  }

  /** `get_text_to_sentences_schema` */
  function TextToSentencesSchema(): Schema {
    Schema(
      ["enabled"],
      {"preserve_line_breaks", "handle_abbreviations"},
      [("enabled", TBool), ("preserve_line_breaks", TBool), ("handle_abbreviations", TBool)],
      [],
      map["enabled" := VBool(true), "preserve_line_breaks" := VBool(false), "handle_abbreviations" := VBool(true)])
  }

  /**
   * As written, a validator that returns `False` adds no error, so a
   * positivity validator never rejects an integer: `validate` passes any
   * integer it guards, however small.
   */
  lemma PositiveNeverReported(schema: Schema, config: Dict, f: string)
    requires forall i :: 0 <= i < |schema.validators| ==> schema.validators[i].1 == Positive
    requires f in config && config[f].VInt?
    ensures forall e :: e in RaisedErrors(schema.validators, config) ==> e.field != f
  {
    RaisedNamesRaising(schema.validators, config);
  }

  /** every error of the validator loop names a present field whose validator raises there */
  lemma {:induction false} RaisedNamesRaising(validators: seq<(string, Value -> Outcome)>, config: Dict)
    ensures forall e :: e in RaisedErrors(validators, config) ==>
      exists i :: 0 <= i < |validators| && validators[i].0 == e.field && e.field in config &&
                  validators[i].1(config[e.field]).Raised?
  {
    if validators != [] {
      var init := validators[..|validators| - 1];
      RaisedNamesRaising(init, config);
      forall e | e in RaisedErrors(validators, config)
        ensures exists i :: 0 <= i < |validators| && validators[i].0 == e.field && e.field in config &&
                            validators[i].1(config[e.field]).Raised?
      {
        if e in RaisedErrors(init, config) {
          var j :| 0 <= j < |init| && init[j].0 == e.field && e.field in config && init[j].1(config[e.field]).Raised?;
          assert validators[j] == init[j];
        } else {
          assert validators[|validators| - 1].0 == e.field;
        }
      }
    }
  }

  /** a punctuation-adder configuration asking for batches of -1 */
  function NegativeBatchConfig(): Dict {
    map["enabled" := VBool(true), "model_name" := VStr("m"), "batch_size" := VInt(-1)]
  }

  /** As written, the standard punctuation-adder schema accepts a batch size of -1. */
  lemma NegativeBatchSizeAccepted()
    ensures Reported(PunctuationAdderSchema(), NegativeBatchConfig()) == []
  {
    var schema := PunctuationAdderSchema();
    var config := NegativeBatchConfig();
    ReportedEmptyIff(schema, config);
    assert schema.validators[0].1(config["batch_size"]) == Returned(VBool(false));
  }

  /**
   * Counting a validator that returns `False` as a failure, as the plugin
   * base class does, rejects every non-positive integer a standard schema
   * guards.
   */
  lemma NonPositiveRejected(schema: Schema, config: Dict, k: nat)
    requires k < |schema.validators| && schema.validators[k].1 == Positive
    requires var f := schema.validators[k].0; f in config && config[f].VInt? && config[f].i <= 0
    ensures Rejected(schema.validators[k].0) in ErrorsOf(schema, config)
  {
    ValidatorRejects(schema.validators, config, k);
  }

  lemma {:induction false} ValidatorRejects(validators: seq<(string, Value -> Outcome)>, config: Dict, k: nat)
    requires k < |validators| && validators[k].0 in config
    requires validators[k].1(config[validators[k].0]) == Returned(VBool(false))
    ensures Rejected(validators[k].0) in ValidatorErrors(validators, config)
  {
    if k < |validators| - 1 {
      ValidatorRejects(validators[..|validators| - 1], config, k);
    }
  }

  /** The corrected check refuses the batch size of -1. */
  lemma NegativeBatchSizeRejected()
    ensures Rejected("batch_size") in ErrorsOf(PunctuationAdderSchema(), NegativeBatchConfig())
  {
    NonPositiveRejected(PunctuationAdderSchema(), NegativeBatchConfig(), 0);
  }

  // ------------------------------------------------------------------
  // The in-memory manager

  class PluginConfigManager {
    var schemas: map<string, Schema>
    var configs: map<string, Dict>

    /** `__init__`: no schemas and no configurations */
    constructor()
      ensures schemas == map[] && configs == map[]
    {
      schemas := map[];
      configs := map[];
    }

    /** `register_schema` */
    method RegisterSchema(pluginName: string, schema: Schema)
      modifies this
      ensures schemas == old(schemas)[pluginName := schema] && configs == old(configs)
    {
      schemas := schemas[pluginName := schema];
    }

    /**
     * `validate_config`: no errors for a plugin without a schema; otherwise
     * what the schema's `validate` reports, so a validator returning `False`
     * adds nothing.
     */
    function ValidateConfig(pluginName: string, config: Dict): (r: seq<string>)
      reads this
      ensures pluginName !in schemas ==> r == []
      ensures pluginName in schemas ==> |r| == |Reported(schemas[pluginName], config)|
      ensures pluginName in schemas ==> forall i :: 0 <= i < |r| ==>
        r[i] == ErrorMessage(Reported(schemas[pluginName], config)[i])
    {
      if pluginName !in schemas then [] else Messages(Reported(schemas[pluginName], config))
    }

    /**
     * `validate_config` as evidently intended: a validator returning `False`
     * counts as a failure, as it does in the plugin base class.
     */
    function ValidateConfigCorrected(pluginName: string, config: Dict): (r: seq<string>)
      reads this
      ensures pluginName !in schemas ==> r == []
      ensures pluginName in schemas ==> |r| == |ErrorsOf(schemas[pluginName], config)|
      ensures pluginName in schemas ==> forall i :: 0 <= i < |r| ==>
        r[i] == ErrorMessage(ErrorsOf(schemas[pluginName], config)[i])
    {
      if pluginName !in schemas then [] else Messages(ErrorsOf(schemas[pluginName], config))
    }

    /** `apply_defaults`: the configuration unchanged without a schema, else completed with its defaults */
    function ApplyDefaults(pluginName: string, config: Dict): (r: Dict)
      reads this
      ensures pluginName !in schemas ==> r == config
      ensures r.Keys >= config.Keys && forall k :: k in config ==> r[k] == config[k]
      ensures pluginName in schemas ==> r.Keys == config.Keys + schemas[pluginName].defaults.Keys
    {
      if pluginName !in schemas then config else WithDefaults(config, schemas[pluginName].defaults)
    }

    /** `get_config`: `None` for a plugin without a stored configuration */
    function GetConfig(pluginName: string): (r: Option<Dict>)
      reads this
      ensures r.Some? <==> pluginName in configs
      ensures r.Some? ==> r.value == configs[pluginName]
    {
      if pluginName in configs then Some(configs[pluginName]) else None
    }

    /** `set_config` */
    method SetConfig(pluginName: string, config: Dict)
      modifies this
      ensures configs == old(configs)[pluginName := config] && schemas == old(schemas)
    {
      configs := configs[pluginName := config];
    }

    /** `save_config_to_file` up to the write: the configuration to write, or the error for a plugin without one */
    method ConfigToSave(pluginName: string) returns (r: Result<Dict>)
      ensures r.Success? <==> pluginName in configs
      ensures r.Success? ==> r.value == configs[pluginName]
      ensures r.Failure? ==> r.error == "No configuration found for plugin '" + pluginName + "'"
    {
      var config := GetConfig(pluginName);
      if config.None? {
        return Failure("No configuration found for plugin '" + pluginName + "'");
      }
      return Success(config.value);
    }

    /** `list_plugins_with_configs`, as a set */
    function ListPluginsWithConfigs(): (r: set<string>)
      reads this
      ensures forall n :: n in r <==> GetConfig(n).Some?
    {
      configs.Keys
    }

    /** `clear_config`: that plugin's configuration goes, if there is one */
    method ClearConfig(pluginName: string)
      modifies this
      ensures configs == old(configs) - {pluginName} && schemas == old(schemas)
    {
      configs := configs - {pluginName};
    }

    /** `clear_all_configs`: the schemas stay */
    method ClearAllConfigs()
      modifies this
      ensures configs == map[] && schemas == old(schemas)
    {
      configs := map[];
    }

    /** `register_standard_schemas` */
    method RegisterStandardSchemas()
      modifies this
      ensures schemas == old(schemas)["text_cleaning" := TextCleaningSchema()]
        ["punctuation_adder" := PunctuationAdderSchema()]["sentence_splitter" := SentenceSplitterSchema()]
        ["text_to_sentences" := TextToSentencesSchema()]
      ensures configs == old(configs)
    {
      RegisterSchema("text_cleaning", TextCleaningSchema());
      RegisterSchema("punctuation_adder", PunctuationAdderSchema());
      RegisterSchema("sentence_splitter", SentenceSplitterSchema());
      RegisterSchema("text_to_sentences", TextToSentencesSchema());
    }
  }

  /**
   * With a schema, a configuration passes `validate_config` exactly when its
   * required fields are present, its present typed fields have their types,
   * and no validator of a present field raises.
   */
  lemma ValidateConfigIff(m: PluginConfigManager, pluginName: string, config: Dict)
    requires pluginName in m.schemas
    ensures var schema := m.schemas[pluginName];
      m.ValidateConfig(pluginName, config) == [] <==>
      && (forall i :: 0 <= i < |schema.required| ==> schema.required[i] in config)
      && (forall i :: 0 <= i < |schema.fieldTypes| && schema.fieldTypes[i].0 in config ==>
            IsInstance(config[schema.fieldTypes[i].0], schema.fieldTypes[i].1))
      && (forall i :: 0 <= i < |schema.validators| && schema.validators[i].0 in config ==>
            !schema.validators[i].1(config[schema.validators[i].0]).Raised?)
  {
    ReportedEmptyIff(m.schemas[pluginName], config);
  }

  /**
   * The corrected check passes a configuration exactly when, in addition,
   * every validator of a present field accepts it.
   */
  lemma ValidateConfigCorrectedIff(m: PluginConfigManager, pluginName: string, config: Dict)
    requires pluginName in m.schemas
    ensures var schema := m.schemas[pluginName];
      m.ValidateConfigCorrected(pluginName, config) == [] <==>
      && (forall i :: 0 <= i < |schema.required| ==> schema.required[i] in config)
      && (forall i :: 0 <= i < |schema.fieldTypes| && schema.fieldTypes[i].0 in config ==>
            IsInstance(config[schema.fieldTypes[i].0], schema.fieldTypes[i].1))
      && (forall i :: 0 <= i < |schema.validators| && schema.validators[i].0 in config ==>
            Accepts(schema.validators[i].1(config[schema.validators[i].0])))
  {
    var schema := m.schemas[pluginName];
    MissingErrorsEmpty(schema.required, config);
    TypeErrorsEmpty(schema.fieldTypes, config);
    ValidatorErrorsEmpty(schema.validators, config);
  }

  /**
   * With the standard schemas registered, the manager as written passes a
   * punctuation-adder configuration with a batch size of -1, and the
   * corrected check refuses it.
   */
  lemma ManagerNegativeBatchSize(m: PluginConfigManager)
    requires "punctuation_adder" in m.schemas && m.schemas["punctuation_adder"] == PunctuationAdderSchema()
    ensures m.ValidateConfig("punctuation_adder", NegativeBatchConfig()) == []
    ensures m.ValidateConfigCorrected("punctuation_adder", NegativeBatchConfig()) != []
  {
    NegativeBatchSizeAccepted();
    NegativeBatchSizeRejected();
  }

  /** A plugin without a schema passes any configuration, which comes back unchanged. */
  lemma NoSchemaPassesThrough(m: PluginConfigManager, pluginName: string, config: Dict)
    requires pluginName !in m.schemas
    ensures m.ValidateConfig(pluginName, config) == [] && m.ValidateConfigCorrected(pluginName, config) == []
    ensures m.ApplyDefaults(pluginName, config) == config
  {
  }
}
