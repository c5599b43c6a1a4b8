/**
 * The base class every text-processing plugin inherits: the configuration
 * it keeps (checked against the plugin's schema, then completed with the
 * schema's defaults), the initialised flag, the map of injected
 * dependencies, batch processing, and the plugin error texts.
 */
module PluginBase {
  import opened Wrappers
  import opened Values
  import opened PyText

  // ------------------------------------------------------------------
  // Schemas and the errors they report

  /** what a field validator did: returned a value, or raised with a message */
  datatype Outcome = Returned(v: Value) | Raised(message: string)

  /**
   * A plugin's `config_schema`: the required fields in order, the optional
   * field names, the expected type of each typed field and the validators,
   * both in dictionary order, and the default values.
   */
  datatype Schema = Schema(
    required: seq<string>,
    optional: set<string>,
    fieldTypes: seq<(string, PyType)>,
    validators: seq<(string, Value -> Outcome)>,
    defaults: Dict)

  /** one entry of the error list `_validate_config` collects */
  datatype ConfigError =
    | Missing(field: string)
    | WrongType(field: string, expected: PyType, got: PyType)
    | Rejected(field: string)
    | ValidatorRaised(field: string, message: string)

  /** the exception raised for an invalid configuration: its errors and the unknown fields */
  datatype ConfigFailure = ConfigFailure(errors: seq<ConfigError>, invalidFields: set<string>)

  /** `__name__` of a type */
  function TypeName(t: PyType): string {
    match t
    case TNoneType => "NoneType"
    case TBool => "bool"
    case TInt => "int"
    case TFloat => "float"
    case TStr => "str"
    case TList => "list"
    case TDict => "dict"
  }

  /** the text of one error */
  function ErrorMessage(e: ConfigError): string {
    match e
    case Missing(f) => "Required field '" + f + "' is missing"
    case WrongType(f, t, g) => "Field '" + f + "' must be of type " + TypeName(t) + ", got " + TypeName(g)
    case Rejected(f) => "Field '" + f + "' validation failed: value is invalid"
    case ValidatorRaised(f, m) => "Field '" + f + "' validation failed: " + m
  }

  /** the text of the unknown-field error */
  function UnknownMessage(f: string): string {
    "Unknown field '" + f + "' is not allowed"
  }

  /** one error per required field the configuration lacks, in order */
  function MissingErrors(required: seq<string>, config: Dict): seq<ConfigError> {
    if required == [] then []
    else
      var f := required[|required| - 1];
      MissingErrors(required[..|required| - 1], config) + (if f in config then [] else [Missing(f)])
  }

  /** one error per typed field that is present with a value of another type */
  function TypeErrors(fieldTypes: seq<(string, PyType)>, config: Dict): seq<ConfigError> {
    if fieldTypes == [] then []
    else
      var (f, t) := fieldTypes[|fieldTypes| - 1];
      TypeErrors(fieldTypes[..|fieldTypes| - 1], config)
        + (if f in config && !IsInstance(config[f], t) then [WrongType(f, t, TypeOf(config[f]))] else [])
  }

  /** the error a validator's outcome gives: returning `False` or raising */
  function OutcomeErrors(f: string, o: Outcome): seq<ConfigError> {
    match o
    case Returned(v) => if v == VBool(false) then [Rejected(f)] else []
    case Raised(m) => [ValidatorRaised(f, m)]
  }

  /** one error per present field whose validator returns `False` or raises */
  function ValidatorErrors(validators: seq<(string, Value -> Outcome)>, config: Dict): seq<ConfigError> {
    if validators == [] then []
    else
      var (f, check) := validators[|validators| - 1];
      ValidatorErrors(validators[..|validators| - 1], config)
        + (if f in config then OutcomeErrors(f, check(config[f])) else [])
  }

  /** the field names a schema allows: required, optional and typed */
  function Allowed(schema: Schema): set<string> {
    (set f | f in schema.required) + schema.optional + (set p | p in schema.fieldTypes :: p.0)
  }

  /** the collected errors, in the order `_validate_config` appends them */
  function ErrorsOf(schema: Schema, config: Dict): seq<ConfigError> {
    MissingErrors(schema.required, config) + TypeErrors(schema.fieldTypes, config)
      + ValidatorErrors(schema.validators, config)
  }

  /** `_validate_config`: the exception it raises, or `None` when the configuration passes */
  function Validate(schema: Schema, config: Dict): Option<ConfigFailure> {
    var errors := ErrorsOf(schema, config);
    var unknown := config.Keys - Allowed(schema);
    if errors == [] && unknown == {} then None else Some(ConfigFailure(errors, unknown))
  }

  /** a validator accepts a value when it returns anything but `False` */
  predicate Accepts(o: Outcome) {
    o.Returned? && o.v != VBool(false)
  }

  /**
   * What a valid configuration is, stated field by field: every required
   * field present, every typed field that is present of its type, every
   * validator accepting its present field, and no field outside the schema.
   */
  predicate Complies(schema: Schema, config: Dict) {
    && (forall i :: 0 <= i < |schema.required| ==> schema.required[i] in config)
    && (forall i :: 0 <= i < |schema.fieldTypes| && schema.fieldTypes[i].0 in config ==>
          IsInstance(config[schema.fieldTypes[i].0], schema.fieldTypes[i].1))
    && (forall i :: 0 <= i < |schema.validators| && schema.validators[i].0 in config ==>
          Accepts(schema.validators[i].1(config[schema.validators[i].0])))
    && config.Keys <= Allowed(schema)
  }

  lemma {:induction false} MissingErrorsEmpty(required: seq<string>, config: Dict)
    ensures MissingErrors(required, config) == [] <==> forall i :: 0 <= i < |required| ==> required[i] in config
  {
    if required != [] {
      var init := required[..|required| - 1];
      MissingErrorsEmpty(init, config);
      if forall i :: 0 <= i < |init| ==> init[i] in config {
        forall i | 0 <= i < |required| - 1 ensures required[i] in config {
          assert required[i] == init[i];
        }
      }
    }
  }

  lemma {:induction false} TypeErrorsEmpty(fieldTypes: seq<(string, PyType)>, config: Dict)
    ensures TypeErrors(fieldTypes, config) == [] <==>
      forall i :: 0 <= i < |fieldTypes| && fieldTypes[i].0 in config ==> IsInstance(config[fieldTypes[i].0], fieldTypes[i].1)
  {
    if fieldTypes != [] {
      var init := fieldTypes[..|fieldTypes| - 1];
      TypeErrorsEmpty(init, config);
      if forall i :: 0 <= i < |init| && init[i].0 in config ==> IsInstance(config[init[i].0], init[i].1) {
        forall i | 0 <= i < |fieldTypes| - 1 && fieldTypes[i].0 in config
          ensures IsInstance(config[fieldTypes[i].0], fieldTypes[i].1)
        {
          assert fieldTypes[i] == init[i];
        }
      }
    }
  }

  lemma {:induction false} ValidatorErrorsEmpty(validators: seq<(string, Value -> Outcome)>, config: Dict)
    ensures ValidatorErrors(validators, config) == [] <==>
      forall i :: 0 <= i < |validators| && validators[i].0 in config ==> Accepts(validators[i].1(config[validators[i].0]))
  {
    if validators != [] {
      var init := validators[..|validators| - 1];
      ValidatorErrorsEmpty(init, config);
      if forall i :: 0 <= i < |init| && init[i].0 in config ==> Accepts(init[i].1(config[init[i].0])) {
        forall i | 0 <= i < |validators| - 1 && validators[i].0 in config
          ensures Accepts(validators[i].1(config[validators[i].0]))
        {
          assert validators[i] == init[i];
        }
      }
    }
  }

  /** `_validate_config` raises exactly when the configuration does not comply with the schema. */
  lemma ValidateIff(schema: Schema, config: Dict)
    ensures Validate(schema, config).None? <==> Complies(schema, config)
  {
    var m := MissingErrors(schema.required, config);
    var t := TypeErrors(schema.fieldTypes, config);
    var v := ValidatorErrors(schema.validators, config);
    MissingErrorsEmpty(schema.required, config);
    TypeErrorsEmpty(schema.fieldTypes, config);
    ValidatorErrorsEmpty(schema.validators, config);
    assert ErrorsOf(schema, config) == [] <==> m == [] && t == [] && v == [] by {
      assert |ErrorsOf(schema, config)| == |m| + |t| + |v|;
    }
    if config.Keys - Allowed(schema) == {} {
      forall k | k in config.Keys ensures k in Allowed(schema) {
        assert k !in config.Keys - Allowed(schema);
      }
    }
  }

  /** Each unknown field is reported by name, and the failure lists every one of them. */
  lemma UnknownReported(schema: Schema, config: Dict, f: string)
    requires f in config && f !in Allowed(schema)
    ensures Validate(schema, config).Some? && f in Validate(schema, config).value.invalidFields
  {
    assert f in config.Keys - Allowed(schema);
  }

  /** A required field that is absent is reported as missing. */
  lemma {:induction false} MissingReported(required: seq<string>, config: Dict, f: string)
    requires f in required && f !in config
    ensures Missing(f) in MissingErrors(required, config)
  {
    var init := required[..|required| - 1];
    if f != required[|required| - 1] {
      assert f in init by {
        var i :| 0 <= i < |required| && required[i] == f;
        assert init[i] == f;
      }
      MissingReported(init, config, f);
    }
  }

  /** `_apply_default_values`: absent fields take the schema's default, present ones keep their value */
  function WithDefaults(config: Dict, defaults: Dict): (r: Dict)
    ensures r.Keys == config.Keys + defaults.Keys
    ensures forall k :: k in config ==> r[k] == config[k]
    ensures forall k :: k in defaults && k !in config ==> r[k] == defaults[k]
  {
    map k | k in config.Keys + defaults.Keys :: if k in config then config[k] else defaults[k]
  }

  /** Applying the defaults twice adds nothing the first time did not. */
  lemma WithDefaultsIdempotent(config: Dict, defaults: Dict)
    ensures WithDefaults(WithDefaults(config, defaults), defaults) == WithDefaults(config, defaults)
  {
  }

  /** `config or {}`: a missing configuration is an empty one */
  function OrEmpty(config: Option<Dict>): Dict {
    if config.Some? then config.value else map[]
  }

  /**
   * The configuration the constructor keeps, or the exception it raises: a
   * plugin with a non-empty schema is validated first and completed with the
   * defaults afterwards.
   */
  function Construct(schema: Option<Schema>, config: Option<Dict>): (r: Result<Dict>)
    ensures schema.None? ==> r == Success(OrEmpty(config))
    ensures schema.Some? ==> (r.Success? <==> Validate(schema.value, OrEmpty(config)).None?)
    ensures schema.Some? && r.Success? ==> r.value == WithDefaults(OrEmpty(config), schema.value.defaults)
  {
    var c := OrEmpty(config);
    if schema.None? then Success(c)
    else if Validate(schema.value, c).Some? then Failure("Configuration validation failed")
    else Success(WithDefaults(c, schema.value.defaults))
  }

  /**
   * The check runs before the defaults are applied, so a required field
   * that has a default must still be supplied.
   */
  lemma DefaultDoesNotSatisfyRequired(schema: Schema, config: Option<Dict>, f: string)
    requires f in schema.required && f in schema.defaults && f !in OrEmpty(config)
    ensures Construct(Some(schema), config).Failure?
  {
    MissingReported(schema.required, OrEmpty(config), f);
  }

  /** `validate_config`: only the required fields are checked */
  predicate HasRequired(schema: Option<Schema>, config: Dict) {
    schema.None? || forall i :: 0 <= i < |schema.value.required| ==> schema.value.required[i] in config
  }

  /** The public check is weaker than the constructor's: a configuration that passes one passes the other. */
  lemma ValidatePassesPublicCheck(schema: Schema, config: Dict)
    requires Validate(schema, config).None?
    ensures HasRequired(Some(schema), config)
  {
    ValidateIff(schema, config);
  }

  /** the first loop of `_validate_config`: the missing required fields */
  method CollectMissing(required: seq<string>, config: Dict) returns (errors: seq<ConfigError>)
    ensures errors == MissingErrors(required, config)
  {
    errors := [];
    var i := 0;
    while i < |required|
      invariant 0 <= i <= |required|
      invariant errors == MissingErrors(required[..i], config)
    {
      var f := required[i];
      assert required[..i + 1][..i] == required[..i];
      if f !in config {
        errors := errors + [Missing(f)];
      }
      i := i + 1;
    }
    assert required[..i] == required;
  }

  /** the second loop: the typed fields of the wrong type */
  method CollectTypeErrors(fieldTypes: seq<(string, PyType)>, config: Dict) returns (errors: seq<ConfigError>)
    ensures errors == TypeErrors(fieldTypes, config)
  {
    errors := [];
    var i := 0;
    while i < |fieldTypes|
      invariant 0 <= i <= |fieldTypes|
      invariant errors == TypeErrors(fieldTypes[..i], config)
    {
      var (f, t) := fieldTypes[i];
      assert fieldTypes[..i + 1][..i] == fieldTypes[..i];
      if f in config && !IsInstance(config[f], t) {
        errors := errors + [WrongType(f, t, TypeOf(config[f]))];
      }
      i := i + 1;
    }
    assert fieldTypes[..i] == fieldTypes;
  }

  /** the third loop: the validators that return `False` or raise */
  method CollectValidatorErrors(validators: seq<(string, Value -> Outcome)>, config: Dict)
    returns (errors: seq<ConfigError>)
    ensures errors == ValidatorErrors(validators, config)
  {
    errors := [];
    var i := 0;
    while i < |validators|
      invariant 0 <= i <= |validators|
      invariant errors == ValidatorErrors(validators[..i], config)
    {
      var (f, check) := validators[i];
      assert validators[..i + 1][..i] == validators[..i];
      if f in config {
        var outcome := check(config[f]);
        match outcome {
          case Returned(v) =>
            if v == VBool(false) {
              errors := errors + [Rejected(f)];
            }
          case Raised(m) =>
            errors := errors + [ValidatorRaised(f, m)];
        }
      }
      i := i + 1;
    }
    assert validators[..i] == validators;
  }

  /** the last loop: the configuration's fields outside the schema */
  method CollectUnknown(allowed: set<string>, config: Dict) returns (unknown: set<string>)
    ensures unknown == config.Keys - allowed
  {
    unknown := {};
    var todo := config.Keys;
    while todo != {}
      invariant todo <= config.Keys
      invariant unknown == (config.Keys - todo) - allowed
      decreases |todo|
    {
      var f :| f in todo;
      if f !in allowed {
        unknown := unknown + {f};
      }
      todo := todo - {f};
    }
  }

  /** `_validate_config`'s loops in order, and the exception they lead to */
  method ValidateConfig(schema: Schema, config: Dict) returns (failure: Option<ConfigFailure>)
    ensures failure == Validate(schema, config)
  {
    var missing := CollectMissing(schema.required, config);
    var typed := CollectTypeErrors(schema.fieldTypes, config);
    var checked := CollectValidatorErrors(schema.validators, config);
    var unknown := CollectUnknown(Allowed(schema), config);
    var errors := missing + typed + checked;
    failure := if errors == [] && unknown == {} then None else Some(ConfigFailure(errors, unknown));
  }

  // ------------------------------------------------------------------
  // Plugin errors

  /** `PluginError` and its subclasses: a message, the plugin's name and an error code */
  datatype PluginError = PluginError(message: string, pluginName: Option<string>, code: Option<string>)

  const InitErrorCode := "INIT_ERROR"
  const ConfigErrorCode := "CONFIG_ERROR"
  const DependencyErrorCode := "DEPENDENCY_ERROR"
  const ProcessingErrorCode := "PROCESSING_ERROR"

  /** a part that Python's `if` takes as present: given and non-empty */
  predicate Present(o: Option<string>) {
    o.Some? && o.value != ""
  }

  /** `str(error)`: `[plugin] message (Error Code: CODE)`, leaving out what is absent */
  function ErrorText(e: PluginError): (r: string)
    ensures !Present(e.pluginName) && !Present(e.code) ==> r == e.message
  {
    var named := if Present(e.pluginName) then "[" + e.pluginName.value + "] " + e.message else e.message;
    if Present(e.code) then named + " (Error Code: " + e.code.value + ")" else named
  }

  /** The text opens with the bracketed plugin name, holds the message, and closes with the code. */
  lemma ErrorTextShape(e: PluginError)
    ensures var r := ErrorText(e);
      var head := if Present(e.pluginName) then "[" + e.pluginName.value + "] " else "";
      var tail := if Present(e.code) then " (Error Code: " + e.code.value + ")" else "";
      r == head + e.message + tail
  {
  }

  function InitializationError(message: string, plugin: Option<string>): (e: PluginError)
    ensures e.code == Some(InitErrorCode) && e.message == message && e.pluginName == plugin
  {
    PluginError(message, plugin, Some(InitErrorCode))
  }

  function ConfigurationError(message: string, plugin: Option<string>): (e: PluginError)
    ensures e.code == Some(ConfigErrorCode) && e.message == message && e.pluginName == plugin
  {
    PluginError(message, plugin, Some(ConfigErrorCode))
  }

  function DependencyError(message: string, plugin: Option<string>): (e: PluginError)
    ensures e.code == Some(DependencyErrorCode) && e.message == message && e.pluginName == plugin
  {
    PluginError(message, plugin, Some(DependencyErrorCode))
  }

  function ProcessingError(message: string, plugin: Option<string>): (e: PluginError)
    ensures e.code == Some(ProcessingErrorCode) && e.message == message && e.pluginName == plugin
  {
    PluginError(message, plugin, Some(ProcessingErrorCode))
  }

  /** Every subclass error ends in its code. */
  lemma CodedErrorEnds(message: string, plugin: Option<string>)
    ensures EndsWith(ErrorText(ConfigurationError(message, plugin)), " (Error Code: " + ConfigErrorCode + ")")
  {
    var e := ConfigurationError(message, plugin);
    var named := if Present(e.pluginName) then "[" + e.pluginName.value + "] " + e.message else e.message;
    var tail := " (Error Code: " + ConfigErrorCode + ")";
    assert ErrorText(e) == named + tail;
    assert (named + tail)[|named + tail| - |tail|..] == tail;
  }

  // ------------------------------------------------------------------
  // Batches

  /** `process` applied to each item separately */
  function Mapped(g: string -> string, xs: seq<string>): (r: seq<string>)
    ensures |r| == |xs|
  {
    if xs == [] then [] else [g(xs[0])] + Mapped(g, xs[1..])
  }

  /** `process` works item by item */
  ghost predicate ItemWise(process: seq<string> -> seq<string>, g: string -> string) {
    forall xs :: process(xs) == Mapped(g, xs)
  }

  /** the results of `process` on consecutive chunks of `size` texts, concatenated */
  function Batched(texts: seq<string>, size: nat, process: seq<string> -> seq<string>): seq<string>
    requires size > 0
    decreases |texts|
  {
    if texts == [] then []
    else
      var n := if size < |texts| then size else |texts|;
      process(texts[..n]) + Batched(texts[n..], size, process)
  }

  lemma {:induction false} MappedAppend(g: string -> string, a: seq<string>, b: seq<string>)
    ensures Mapped(g, a + b) == Mapped(g, a) + Mapped(g, b)
  {
    if a != [] {
      assert (a + b)[1..] == a[1..] + b;
      MappedAppend(g, a[1..], b);
    } else {
      assert a + b == b;
    }
  }

  /** Batching a process that works item by item gives the same result as one call. */
  lemma {:induction false} BatchedItemWise(texts: seq<string>, size: nat, process: seq<string> -> seq<string>,
                                           g: string -> string)
    requires size > 0 && ItemWise(process, g)
    ensures Batched(texts, size, process) == Mapped(g, texts)
    decreases |texts|
  {
    if texts != [] {
      var n := if size < |texts| then size else |texts|;
      BatchedItemWise(texts[n..], size, process, g);
      assert process(texts[..n]) == Mapped(g, texts[..n]);
      MappedAppend(g, texts[..n], texts[n..]);
      assert texts[..n] + texts[n..] == texts;
    }
  }

  /** One chunk taken off the front of the remaining texts. */
  lemma BatchedStep(texts: seq<string>, i: nat, j: nat, size: nat, process: seq<string> -> seq<string>)
    requires size > 0 && i < |texts| && j == (if i + size < |texts| then i + size else |texts|)
    ensures Batched(texts[i..], size, process) == process(texts[i..j]) + Batched(texts[j..], size, process)
  {
    assert texts[i..][..j - i] == texts[i..j];
    assert texts[i..][j - i..] == texts[j..];
  }

  /**
   * `process_batch`: an empty list gives an empty list; otherwise
   * `range(0, len, batch_size)` raises for a zero step and is empty for a
   * negative one.
   */
  method ProcessBatch(texts: seq<string>, batchSize: int, process: seq<string> -> seq<string>)
    returns (r: Result<seq<string>>)
    ensures texts == [] ==> r == Success([])
    ensures texts != [] && batchSize == 0 ==> r.Failure?
    ensures texts != [] && batchSize < 0 ==> r == Success([])
    ensures batchSize > 0 ==> r == Success(Batched(texts, batchSize, process))
  {
    if texts == [] {
      assert batchSize > 0 ==> Batched(texts, batchSize, process) == [];
      return Success([]);
    }
    if batchSize == 0 {
      return Failure("range() arg 3 must not be zero");
    }
    if batchSize < 0 {
      return Success([]);
    }
    var results: seq<string> := [];
    var i := 0;
    assert texts[i..] == texts;
    while i < |texts|
      invariant 0 <= i <= |texts|
      invariant results + Batched(texts[i..], batchSize, process) == Batched(texts, batchSize, process)
      decreases |texts| - i
    {
      var j := if i + batchSize < |texts| then i + batchSize else |texts|;
      var batch := texts[i..j];
      BatchedStep(texts, i, j, batchSize, process);
      results := results + process(batch);
      i := j;
    }
    assert Batched(texts[i..], batchSize, process) == [] by {
      assert texts[i..] == [];
    }
    assert results + [] == results;
    assert results == Batched(texts, batchSize, process);
    r := Success(results);
  }

  // ------------------------------------------------------------------
  // The plugin object

  /**
   * `TextProcessorPlugin`: the configuration, the initialised flag and the
   * injected dependencies, whose objects are of type `D`.
   */
  class TextProcessorPlugin<D> {
    const schema: Option<Schema>
    var config: Dict
    var initialized: bool
    var dependencies: map<string, D>

    /** `__init__`, for a configuration the schema accepts */
    constructor(schema: Option<Schema>, config: Option<Dict>)
      requires Construct(schema, config).Success?
      ensures this.schema == schema && this.config == Construct(schema, config).value
      ensures !initialized && dependencies == map[]
    {
      this.schema := schema;
      this.config := Construct(schema, config).value;
      initialized := false;
      dependencies := map[];
    }

    /** `initialize` */
    method Initialize()
      modifies this
      ensures initialized && config == old(config) && dependencies == old(dependencies)
    {
      initialized := true;
    }

    /** `cleanup` */
    method Cleanup()
      modifies this
      ensures !initialized && config == old(config) && dependencies == old(dependencies)
    {
      initialized := false;
    }

    /** `is_initialized` */
    function IsInitialized(): bool
      reads this
    {
      initialized
    }

    /** `get_config`: a copy of the configuration */
    function GetConfig(): Dict
      reads this
    {
      config
    }

    /**
     * `set_config`: the copy is stored first and validated afterwards, so
     * the new configuration stays even when the check raises.
     */
    method SetConfig(c: Dict) returns (failure: Option<ConfigFailure>)
      modifies this
      ensures config == c && initialized == old(initialized) && dependencies == old(dependencies)
      ensures schema.None? ==> failure.None?
      ensures schema.Some? ==> failure == Validate(schema.value, c)
    {
      config := c;
      if schema.Some? {
        failure := ValidateConfig(schema.value, config);
      } else {
        failure := None;
      }
    }

    /** `set_dependency` */
    method SetDependency(name: string, d: D)
      modifies this
      ensures dependencies == old(dependencies)[name := d]
      ensures config == old(config) && initialized == old(initialized)
    {
      dependencies := dependencies[name := d];
    }

    /** `has_dependency` */
    predicate HasDependency(name: string)
      reads this
    {
      name in dependencies
    }

    /** `get_dependency`: a `KeyError` for an unknown name */
    method GetDependency(name: string) returns (r: Result<D>)
      ensures r.Success? <==> name in dependencies
      ensures r.Success? ==> r.value == dependencies[name]
    {
      if name !in dependencies {
        return Failure("Dependency '" + name + "' not found");
      }
      r := Success(dependencies[name]);
    }
  }
}
