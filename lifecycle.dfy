/**
 * The plugin lifecycle manager: it loads plugins through the registry,
 * injects the registered dependencies and the other loaded plugins into
 * each one, initialises them, remembers the initialisation order, and
 * cleans them up again, all of them in reverse order.
 */
module Lifecycle {
  import opened Wrappers
  import opened Values

  /** an injected dependency: a registered object, or another loaded plugin by its key */
  datatype Dep = External(id: nat) | PluginRef(key: string)

  /** a plugin instance: its own name, the dependency names it declares, its flag and what it received */
  datatype Instance = Instance(name: string, declared: seq<string>, initialized: bool, injected: map<string, Dep>)

  /**
   * What the registry and the plugins' own code decide: the missing
   * dependencies of a plugin, the instance it creates or the error it
   * raises, and the error `initialize` or `cleanup` raises, if any.
   */
  datatype Registry = Registry(
    missing: string -> seq<string>,
    create: (string, Option<Dict>) -> Result<Instance>,
    initFailure: string -> Option<string>,
    cleanupFailure: string -> Option<string>)

  /** Python's `repr` of a list of strings */
  function ListRepr(xs: seq<string>): string {
    "[" + Quoted(xs) + "]"
  }

  function Quoted(xs: seq<string>): string {
    if xs == [] then ""
    else if |xs| == 1 then "'" + xs[0] + "'"
    else Quoted(xs[..|xs| - 1]) + ", '" + xs[|xs| - 1] + "'"
  }

  /** no name twice */
  predicate Distinct(xs: seq<string>) {
    forall i, j :: 0 <= i < j < |xs| ==> xs[i] != xs[j]
  }

  /** the instance after `_inject_dependencies`: every registered dependency, then every other loaded plugin */
  function Injected(p: Instance, deps: map<string, nat>, loaded: set<string>): (r: Instance)
    ensures r.name == p.name && r.declared == p.declared && r.initialized == p.initialized
  {
    p.(injected := p.injected + Externals(deps) + Refs(loaded, p.name))
  }

  /**
   * After injection a plugin holds everything it held, every registered
   * dependency, and every other loaded plugin, a plugin winning over a
   * registered object of the same name.
   */
  lemma InjectedHolds(p: Instance, deps: map<string, nat>, loaded: set<string>)
    ensures var r := Injected(p, deps, loaded);
      && (forall k :: k in r.injected <==> k in p.injected || k in deps || (k in loaded && k != p.name))
      && (forall k :: k in loaded && k != p.name ==> r.injected[k] == PluginRef(k))
      && (forall k :: k in deps && !(k in loaded && k != p.name) ==> r.injected[k] == External(deps[k]))
      && (forall k :: k in p.injected && k !in deps && !(k in loaded && k != p.name) ==> r.injected[k] == p.injected[k])
  {
  }

  function Externals(deps: map<string, nat>): (r: map<string, Dep>)
    ensures r.Keys == deps.Keys && forall k :: k in r ==> r[k] == External(deps[k])
  {
    map k | k in deps :: External(deps[k])
  }

  function Refs(loaded: set<string>, self: string): (r: map<string, Dep>)
    ensures r.Keys == loaded - {self} && forall k :: k in r ==> r[k] == PluginRef(k)
  {
    map k | k in loaded && k != self :: PluginRef(k)
  }

  /** the instance once dependencies are injected and `initialize` has run */
  function Ready(p: Instance, deps: map<string, nat>, loaded: set<string>): Instance {
    Injected(p, deps, loaded).(initialized := true)
  }

  /** `order` with each name of `names` appended unless already there */
  function AppendAbsent(order: seq<string>, names: seq<string>): (r: seq<string>)
    ensures forall n :: n in r <==> n in order || n in names
    ensures |order| <= |r| && r[..|order|] == order
    ensures Distinct(order) ==> Distinct(r)
  {
    if names == [] then order
    else
      var prev := AppendAbsent(order, names[..|names| - 1]);
      var n := names[|names| - 1];
      assert forall m :: m in names <==> m in names[..|names| - 1] || m == n;
      if n in prev then prev else prev + [n]
  }

  /** the names of `order` that are keys of `loaded`, last first: the cleanups `cleanup_all` runs */
  function CleanupSequence(order: seq<string>, loaded: set<string>): (r: seq<string>)
    ensures forall n :: n in r <==> n in order && n in loaded
  {
    if order == [] then []
    else
      var rest := CleanupSequence(order[1..], loaded);
      assert forall n :: n in order <==> n == order[0] || n in order[1..];
      rest + (if order[0] in loaded then [order[0]] else [])
  }

  /** Each plugin is cleaned up after every plugin initialised later than it. */
  lemma {:induction false} CleanupReversesOrder(order: seq<string>, loaded: set<string>, i: nat, j: nat)
    requires i < j < |order| && order[i] in loaded && order[j] in loaded && Distinct(order)
    ensures exists a, b ::
      (0 <= a < b < |CleanupSequence(order, loaded)| &&
       CleanupSequence(order, loaded)[a] == order[j] && CleanupSequence(order, loaded)[b] == order[i])
  {
    var rest := CleanupSequence(order[1..], loaded);
    if i == 0 {
      assert order[j] == order[1..][j - 1];
      var a :| 0 <= a < |rest| && rest[a] == order[j];
      assert CleanupSequence(order, loaded) == rest + [order[0]];
      assert CleanupSequence(order, loaded)[|rest|] == order[i];
    } else {
      assert order[i] == order[1..][i - 1] && order[j] == order[1..][j - 1];
      CleanupReversesOrder(order[1..], loaded, i - 1, j - 1);
      var a, b :| 0 <= a < b < |rest| && rest[a] == order[j] && rest[b] == order[i];
      var full := CleanupSequence(order, loaded);
      assert full[..|rest|] == rest;
      assert full[a] == order[j] && full[b] == order[i];
    }
  }

  /** how the first pass of `load_plugins` ended: the instances it stored, and the error that stopped it */
  datatype Creation = Creation(created: seq<(string, Instance)>, error: Option<string>)

  /** whether `load_plugins` takes a configuration: `config.get("enabled", True)` */
  predicate EnabledConfig(config: Dict) {
    Truthy(Get(config, "enabled", VBool(true)))
  }

  /** the first pass of `load_plugins`: create each enabled plugin in turn, stopping at the first error */
  function Create(reg: Registry, configs: seq<(string, Dict)>): (c: Creation)
    ensures |c.created| <= |configs|
  {
    if configs == [] then Creation([], None)
    else CreateNext(reg, Create(reg, configs[..|configs| - 1]), configs[|configs| - 1])
  }

  /** one step of the first pass */
  function CreateNext(reg: Registry, prev: Creation, entry: (string, Dict)): (c: Creation)
    ensures |c.created| <= |prev.created| + 1
  {
    var (name, config) := entry;
    if prev.error.Some? || !EnabledConfig(config) then prev
    else
      match reg.create(name, Some(config))
      case Failure(e) => Creation(prev.created, Some("Failed to create plugin instance '" + name + "': " + e))
      case Success(p) => Creation(prev.created + [(name, p)], None)
  }

  lemma CreatePrefix(reg: Registry, configs: seq<(string, Dict)>, i: nat)
    requires i < |configs|
    ensures Create(reg, configs[..i + 1]) == CreateNext(reg, Create(reg, configs[..i]), configs[i])
  {
    assert configs[..i + 1][..i] == configs[..i];
  }

  lemma AsMapSnoc(pairs: seq<(string, Instance)>, name: string, p: Instance)
    ensures AsMap(pairs + [(name, p)]) == AsMap(pairs)[name := p]
  {
    assert (pairs + [(name, p)])[..|pairs|] == pairs;
  }

  /** Injecting the same dependencies twice gives what injecting them once gave. */
  lemma ReadyTwice(p: Instance, deps: map<string, nat>, loaded: set<string>)
    ensures Ready(Ready(p, deps, loaded), deps, loaded) == Ready(p, deps, loaded)
  {
  }

  /** the names of a list of pairs */
  function Names(pairs: seq<(string, Instance)>): (r: seq<string>)
    ensures |r| == |pairs| && forall i :: 0 <= i < |r| ==> r[i] == pairs[i].0
  {
    if pairs == [] then [] else Names(pairs[..|pairs| - 1]) + [pairs[|pairs| - 1].0]
  }

  /** the pairs as a dictionary, a later pair winning */
  function AsMap(pairs: seq<(string, Instance)>): (r: map<string, Instance>)
    ensures forall n :: n in r <==> n in Names(pairs)
  {
    if pairs == [] then map[] else AsMap(pairs[..|pairs| - 1])[pairs[|pairs| - 1].0 := pairs[|pairs| - 1].1]
  }

  /** the loaded plugins after the second pass of `load_plugins` over `names` */
  function ReadyAll(instances: map<string, Instance>, names: seq<string>, deps: map<string, nat>, loaded: set<string>)
    : (r: map<string, Instance>)
    ensures r.Keys == instances.Keys
  {
    instances + map n | n in names && n in instances :: Ready(instances[n], deps, loaded)
  }

  /** what `load_plugin` gives for a new plugin once created: the ready instance, or the error `initialize` raised */
  function Loaded(reg: Registry, deps: map<string, nat>, name: string, p: Instance, loaded: set<string>)
    : (r: Result<Instance>)
    ensures r.Success? <==> reg.initFailure(name).None?
    ensures r.Success? ==> r.value.initialized && r.value.name == p.name
  {
    var failure := reg.initFailure(name);
    if failure.Some? then Failure("Failed to load plugin '" + name + "': " + failure.value)
    else Success(Ready(p, deps, loaded + {name}))
  }

  lemma AppendAbsentStep(order: seq<string>, names: seq<string>, i: nat)
    requires i < |names|
    ensures AppendAbsent(order, names[..i + 1]) == AppendAbsent(AppendAbsent(order, names[..i]), [names[i]])
  {
    assert names[..i + 1][..i] == names[..i];
    assert [names[i]][..0] == [];
  }

  lemma UpdateTwice<V>(m: map<string, V>, k: string, a: V, b: V)
    ensures m[k := a][k := b] == m[k := b]
  {
  }

  lemma UnionUpdated<V>(a: map<string, V>, b: map<string, V>, k: string, v: V)
    ensures (a + b)[k := v] == a + b[k := v]
  {
  }

  lemma UpdateRemoved<V>(m: map<string, V>, k: string, a: V)
    requires k !in m
    ensures m[k := a] - {k} == m
  {
  }

  /** the position of the first plugin of `names` whose `initialize` raises, or `|names|` */
  function FirstInitFailure(reg: Registry, names: seq<string>): (k: nat)
    ensures k <= |names|
    ensures forall i :: 0 <= i < k ==> reg.initFailure(names[i]).None?
    ensures k < |names| ==> reg.initFailure(names[k]).Some?
  {
    if names == [] then 0
    else if reg.initFailure(names[0]).Some? then 0
    else 1 + FirstInitFailure(reg, names[1..])
  }

  class PluginLifecycleManager {
    const registry: Registry
    var instances: map<string, Instance>
    var order: seq<string>
    var dependencies: map<string, nat>
    /** the plugins whose `cleanup` was called, in call order */
    var cleanups: seq<string>

    /** the initialisation order names loaded plugins, each once */
    predicate Valid()
      reads this
    {
      Distinct(order) && forall n :: n in order ==> n in instances
    }

    /** `__init__` */
    constructor(registry: Registry)
      ensures Valid() && this.registry == registry
      ensures instances == map[] && order == [] && dependencies == map[] && cleanups == []
    {
      this.registry := registry;
      instances := map[];
      order := [];
      dependencies := map[];
      cleanups := [];
    }

    /** `register_dependency` */
    method RegisterDependency(name: string, dependency: nat)
      modifies this
      ensures dependencies == old(dependencies)[name := dependency]
      ensures instances == old(instances) && order == old(order) && cleanups == old(cleanups)
    {
      dependencies := dependencies[name := dependency];
    }

    /** `_inject_dependencies`: the registered dependencies, then every loaded plugin but itself */
    method InjectDependencies(p: Instance) returns (r: Instance)
      ensures r == Injected(p, dependencies, instances.Keys)
    {
      var injected := SetAll(p.injected, Externals(dependencies));
      injected := SetAll(injected, Refs(instances.Keys, p.name));
      r := p.(injected := injected);
    }

    /** one `set_dependency` call per entry */
    static method SetAll(injected: map<string, Dep>, entries: map<string, Dep>) returns (r: map<string, Dep>)
      ensures r == injected + entries
    {
      r := injected;
      ghost var done: set<string> := {};
      var todo := entries.Keys;
      while todo != {}
        invariant todo <= entries.Keys && done == entries.Keys - todo
        invariant r == injected + map k | k in done :: entries[k]
        decreases |todo|
      {
        var k :| k in todo;
        assert (map j | j in done + {k} :: entries[j]) == (map j | j in done :: entries[j])[k := entries[k]];
        r := r[k := entries[k]];
        todo := todo - {k};
        done := done + {k};
      }
      assert (map j | j in done :: entries[j]) == entries;
    }

    /**
     * `load_plugin`: an already loaded plugin comes back as it is; missing
     * dependencies and a failing creation raise before anything changes; a
     * failing `initialize` takes the new instance out again; otherwise the
     * instance is stored ready and its name joins the order.
     */
    method LoadPlugin(name: string, config: Option<Dict>) returns (r: Result<Instance>)
      requires Valid()
      modifies this
      ensures Valid()
      ensures dependencies == old(dependencies) && cleanups == old(cleanups)
      ensures name in old(instances) ==>
        r == Success(old(instances)[name]) && instances == old(instances) && order == old(order)
      ensures name !in old(instances) && registry.missing(name) != [] ==>
        r == Failure("Plugin '" + name + "' has missing dependencies: " + ListRepr(registry.missing(name)))
      ensures name !in old(instances) && registry.missing(name) == [] && registry.create(name, config).Failure? ==>
        r == Failure("Failed to load plugin '" + name + "': " + registry.create(name, config).error)
      ensures name !in old(instances) && registry.missing(name) == [] && registry.create(name, config).Success? ==>
        r == Loaded(registry, dependencies, name, registry.create(name, config).value, old(instances).Keys)
      ensures r.Failure? ==> instances == old(instances) && order == old(order)
      ensures name !in old(instances) && r.Success? ==>
        instances == old(instances)[name := r.value] && order == old(order) + [name]
    {
      if name in instances {
        return Success(instances[name]);
      }
      var missing := registry.missing(name);
      if missing != [] {
        return Failure("Plugin '" + name + "' has missing dependencies: " + ListRepr(missing));
      }
      var created := registry.create(name, config);
      if created.Failure? {
        return Failure("Failed to load plugin '" + name + "': " + created.error);
      }
      r := StoreAndInitialize(name, created.value);
    }

    /** the part of `load_plugin` inside its `try`, for a created instance */
    method StoreAndInitialize(name: string, p: Instance) returns (r: Result<Instance>)
      requires Valid() && name !in instances
      modifies this
      ensures Valid() && dependencies == old(dependencies) && cleanups == old(cleanups)
      ensures r == Loaded(registry, dependencies, name, p, old(instances).Keys)
      ensures r.Failure? ==> instances == old(instances) && order == old(order)
      ensures r.Success? ==> instances == old(instances)[name := r.value] && order == old(order) + [name]
    {
      ghost var before := instances;
      instances := instances[name := p];
      assert instances.Keys == before.Keys + {name};
      var q := InjectDependencies(p);
      UpdateTwice(before, name, p, q);
      instances := instances[name := q];
      var failure := registry.initFailure(name);
      if failure.Some? {
        UpdateRemoved(before, name, q);
        instances := instances - {name};
        return Failure("Failed to load plugin '" + name + "': " + failure.value);
      }
      UpdateTwice(before, name, q, q.(initialized := true));
      q := q.(initialized := true);
      instances := instances[name := q];
      order := order + [name];
      return Success(q);
    }

    /** the first pass of `load_plugins` */
    method CreateInstances(configs: seq<(string, Dict)>) returns (c: Creation)
      requires Valid()
      modifies this
      ensures Valid() && c == Create(registry, configs)
      ensures instances == old(instances) + AsMap(c.created)
      ensures order == old(order) && dependencies == old(dependencies) && cleanups == old(cleanups)
    {
      c := Creation([], None);
      for i := 0 to |configs|
        invariant c == Create(registry, configs[..i])
        invariant instances == old(instances) + AsMap(c.created)
        invariant order == old(order) && dependencies == old(dependencies) && cleanups == old(cleanups)
      {
        CreatePrefix(registry, configs, i);
        var (name, config) := configs[i];
        if c.error.None? && EnabledConfig(config) {
          var made := registry.create(name, Some(config));
          if made.Failure? {
            c := Creation(c.created, Some("Failed to create plugin instance '" + name + "': " + made.error));
          } else {
            AsMapSnoc(c.created, name, made.value);
            UnionUpdated(old(instances), AsMap(c.created), name, made.value);
            instances := instances[name := made.value];
            c := Creation(c.created + [(name, made.value)], None);
          }
        }
      }
      assert configs[..|configs|] == configs;
    }

    /**
     * The second pass of `load_plugins`: each created plugin in turn gets
     * its dependencies and is initialised; the first failure cleans up
     * everything.
     */
    method InitializeAll(names: seq<string>) returns (r: Option<string>)
      requires Valid() && forall n :: n in names ==> n in instances
      modifies this
      ensures Valid() && dependencies == old(dependencies)
      ensures var k := FirstInitFailure(registry, names);
        && (r.Some? <==> k < |names|)
        && (r.None? ==>
              && instances == ReadyAll(old(instances), names, dependencies, old(instances).Keys)
              && order == AppendAbsent(old(order), names) && cleanups == old(cleanups))
        && (r.Some? ==>
              && r.value == "Failed to initialize plugin '" + names[k] + "': " + registry.initFailure(names[k]).value
              && instances == map[] && order == []
              && cleanups == old(cleanups) + CleanupSequence(AppendAbsent(old(order), names[..k]), old(instances).Keys))
    {
      ghost var keys := instances.Keys;
      for i := 0 to |names|
        invariant Valid() && dependencies == old(dependencies) && cleanups == old(cleanups)
        invariant InitSucceeds(registry, names, i)
        invariant instances == ReadyAll(old(instances), names[..i], dependencies, keys)
        invariant order == AppendAbsent(old(order), names[..i])
      {
        var name := names[i];
        ReadyAllStep(old(instances), names, i, dependencies, keys);
        ReadyAgain(old(instances), names[..i], name, dependencies, keys);
        var failure := InitializeOne(name);
        if failure.Some? {
          ZeroFailuresBefore(registry, names, i);
          CleanupAll();
          return Some("Failed to initialize plugin '" + name + "': " + failure.value);
        }
        AppendAbsentStep(old(order), names, i);
        assert InitSucceeds(registry, names, i + 1) by {
          forall j | 0 <= j < i + 1 ensures registry.initFailure(names[j]).None? {
            if j < i {
              assert InitSucceeds(registry, names, i);
            }
          }
        }
      }
      assert names[..|names|] == names;
      NoFailure(registry, names);
      return None;
    }

    /** one step of the second pass: inject, then `initialize`, then join the order; the error `initialize` raised */
    method InitializeOne(name: string) returns (failure: Option<string>)
      requires Valid() && name in instances
      modifies this
      ensures Valid() && dependencies == old(dependencies) && cleanups == old(cleanups)
      ensures instances.Keys == old(instances).Keys
      ensures failure == registry.initFailure(name)
      ensures failure.Some? ==> order == old(order)
      ensures failure.None? ==>
        && instances == old(instances)[name := Ready(old(instances)[name], dependencies, old(instances).Keys)]
        && order == AppendAbsent(old(order), [name])
    {
      ghost var before := instances;
      var p := InjectDependencies(instances[name]);
      instances := instances[name := p];
      failure := registry.initFailure(name);
      if failure.Some? {
        return;
      }
      UpdateTwice(before, name, p, p.(initialized := true));
      instances := instances[name := p.(initialized := true)];
      if name !in order {
        order := order + [name];
      }
    }

    /**
     * `load_plugins`: disabled configurations are skipped; a failing
     * creation stops the first pass with the instances created so far still
     * stored; the second pass fails exactly when some created plugin's
     * `initialize` raises, and then `cleanup_all` cleans up every loaded
     * plugin of the order, last initialised first, and nothing is left.
     */
    method LoadPlugins(configs: seq<(string, Dict)>) returns (r: Result<map<string, Instance>>)
      requires Valid()
      modifies this
      ensures Valid() && dependencies == old(dependencies)
      ensures var c := Create(registry, configs);
        && (c.error.Some? ==> r == Failure(c.error.value) && instances == old(instances) + AsMap(c.created)
                               && order == old(order) && cleanups == old(cleanups))
        && (c.error.None? && r.Success? ==>
              && r.value.Keys == AsMap(c.created).Keys
              && instances == ReadyAll(old(instances) + AsMap(c.created), Names(c.created), dependencies,
                                       old(instances).Keys + AsMap(c.created).Keys)
              && (forall n :: n in r.value ==> n in instances && r.value[n] == instances[n])
              && order == AppendAbsent(old(order), Names(c.created)) && cleanups == old(cleanups))
        && (c.error.None? ==> (r.Failure? <==> FirstInitFailure(registry, Names(c.created)) < |Names(c.created)|))
        && (c.error.None? && r.Failure? ==>
              var names, k := Names(c.created), FirstInitFailure(registry, Names(c.created));
              && r.error == "Failed to initialize plugin '" + names[k] + "': " + registry.initFailure(names[k]).value
              && instances == map[] && order == []
              && cleanups == old(cleanups) + CleanupSequence(AppendAbsent(old(order), names[..k]),
                                                             old(instances).Keys + AsMap(c.created).Keys))
    {
      var c := CreateInstances(configs);
      if c.error.Some? {
        return Failure(c.error.value);
      }
      var names := Names(c.created);
      var failure := InitializeAll(names);
      if failure.Some? {
        return Failure(failure.value);
      }
      var loaded := map n | n in names && n in instances :: instances[n];
      return Success(loaded);
    }

    /**
     * `unload_plugin`: nothing for a plugin that is not loaded; a `cleanup`
     * that raises is only logged and leaves the plugin loaded; otherwise the
     * plugin leaves both the instances and the order.
     */
    method UnloadPlugin(name: string)
      requires Valid()
      modifies this
      ensures Valid() && dependencies == old(dependencies)
      ensures name !in old(instances) ==>
        instances == old(instances) && order == old(order) && cleanups == old(cleanups)
      ensures name in old(instances) ==> cleanups == old(cleanups) + [name]
      ensures name in old(instances) && registry.cleanupFailure(name).Some? ==>
        instances == old(instances) && order == old(order)
      ensures name in old(instances) && registry.cleanupFailure(name).None? ==>
        instances == old(instances) - {name} && order == Without(old(order), name)
    {
      if name !in instances {
        return;
      }
      cleanups := cleanups + [name];
      if registry.cleanupFailure(name).Some? {
        return;
      }
      instances := instances - {name};
      order := Without(order, name);
    }

    /** `cleanup_all`: every loaded plugin of the order is cleaned up, last initialised first, then nothing is left */
    method CleanupAll()
      modifies this
      ensures Valid() && instances == map[] && order == []
      ensures cleanups == old(cleanups) + CleanupSequence(old(order), old(instances).Keys)
      ensures dependencies == old(dependencies)
    {
      var i := |order|;
      while i > 0
        invariant 0 <= i <= |order|
        invariant cleanups == old(cleanups) + CleanupSequence(order[i..], instances.Keys)
        invariant instances == old(instances) && order == old(order) && dependencies == old(dependencies)
      {
        i := i - 1;
        assert order[i..][1..] == order[i + 1..];
        if order[i] in instances {
          cleanups := cleanups + [order[i]];
        }
      }
      assert order[0..] == order;
      instances := map[];
      order := [];
    }

    /** `get_plugin_instance` */
    function GetPluginInstance(name: string): (r: Option<Instance>)
      reads this
      ensures r.Some? <==> name in instances
      ensures r.Some? ==> r.value == instances[name]
    {
      if name in instances then Some(instances[name]) else None
    }

    /** `is_plugin_loaded` */
    predicate IsPluginLoaded(name: string)
      reads this
      ensures IsPluginLoaded(name) <==> GetPluginInstance(name).Some?
    {
      name in instances
    }

    /** `list_loaded_plugins`, as a set */
    function ListLoadedPlugins(): (r: set<string>)
      reads this
      ensures forall n :: n in r <==> IsPluginLoaded(n)
    {
      instances.Keys
    }

    /**
     * `reload_plugin`: a loaded plugin is unloaded first (its `cleanup` is
     * called), then loaded with the new configuration; when its `cleanup`
     * raises it stays loaded and the old instance comes back. Once unloaded,
     * a failing load leaves it unloaded, and a successful one stores the new
     * instance at the end of the order.
     */
    method ReloadPlugin(name: string, config: Option<Dict>) returns (r: Result<Instance>)
      requires Valid()
      modifies this
      ensures Valid() && dependencies == old(dependencies)
      ensures cleanups == old(cleanups) + (if name in old(instances) then [name] else [])
      ensures name in old(instances) && registry.cleanupFailure(name).Some? ==>
        r == Success(old(instances)[name]) && instances == old(instances) && order == old(order)
      ensures (name !in old(instances) || registry.cleanupFailure(name).None?) ==>
        && (registry.missing(name) != [] || registry.create(name, config).Failure? ==> r.Failure?)
        && (registry.missing(name) == [] && registry.create(name, config).Success? ==>
              r == Loaded(registry, dependencies, name, registry.create(name, config).value, old(instances).Keys - {name}))
        && (r.Failure? ==> instances == old(instances) - {name} && order == Without(old(order), name))
        && (r.Success? ==> instances == (old(instances) - {name})[name := r.value]
                           && order == Without(old(order), name) + [name])
    {
      if name in instances {
        UnloadPlugin(name);
      } else {
        assert name !in order;
        assert old(instances) - {name} == old(instances);
      }
      assert name in old(instances) && registry.cleanupFailure(name).Some? ==> instances == old(instances);
      assert !(name in old(instances) && registry.cleanupFailure(name).Some?) ==>
        name !in instances && instances == old(instances) - {name} && order == Without(old(order), name);
      r := LoadPlugin(name, config);
    }

    /** `get_dependency_graph`: each loaded plugin with its declared dependencies that are loaded */
    method GetDependencyGraph() returns (graph: map<string, seq<string>>)
      ensures graph.Keys == instances.Keys
      ensures forall n :: n in graph ==> graph[n] == LoadedOnly(instances[n].declared, instances.Keys)
    {
      graph := map[];
      var todo := instances.Keys;
      while todo != {}
        invariant todo <= instances.Keys && graph.Keys == instances.Keys - todo
        invariant forall n :: n in graph ==> graph[n] == LoadedOnly(instances[n].declared, instances.Keys)
        decreases |todo|
      {
        var name :| name in todo;
        var deps := LoadedDependencies(instances[name].declared);
        graph := graph[name := deps];
        todo := todo - {name};
      }
    }

    /** the inner loop of `get_dependency_graph` */
    method LoadedDependencies(declared: seq<string>) returns (deps: seq<string>)
      ensures deps == LoadedOnly(declared, instances.Keys)
    {
      deps := [];
      for i := 0 to |declared|
        invariant deps == LoadedOnly(declared[..i], instances.Keys)
      {
        assert declared[..i + 1][..i] == declared[..i];
        if IsPluginLoaded(declared[i]) {
          deps := deps + [declared[i]];
        }
      }
      assert declared[..|declared|] == declared;
    }
  }

  /** `order.remove(name)` when present */
  function Without(order: seq<string>, name: string): (r: seq<string>)
    ensures Distinct(order) ==> Distinct(r) && forall n :: n in r <==> n in order && n != name
    ensures name !in order ==> r == order
  {
    if order == [] then []
    else if order[0] == name then order[1..]
    else
      var rest := Without(order[1..], name);
      assert forall n :: n in order <==> n == order[0] || n in order[1..];
      DistinctTail(order);
      [order[0]] + rest
  }

  lemma DistinctTail(order: seq<string>)
    requires order != []
    ensures Distinct(order) ==> Distinct(order[1..]) && order[0] !in order[1..]
  {
    if Distinct(order) {
      forall k | 0 <= k < |order[1..]| ensures order[1..][k] != order[0] {
        assert order[1..][k] == order[k + 1];
      }
    }
  }

  /** the names of `declared` that are loaded, in order */
  function LoadedOnly(declared: seq<string>, loaded: set<string>): (r: seq<string>)
    ensures forall n :: n in r <==> n in declared && n in loaded
    ensures |r| <= |declared|
  {
    if declared == [] then []
    else
      var init := declared[..|declared| - 1];
      var n := declared[|declared| - 1];
      assert forall m :: m in declared <==> m in init || m == n;
      LoadedOnly(init, loaded) + (if n in loaded then [n] else [])
  }

  /** the first `i` plugins of `names` initialise without raising */
  predicate InitSucceeds(reg: Registry, names: seq<string>, i: nat)
    requires i <= |names|
  {
    forall j :: 0 <= j < i ==> reg.initFailure(names[j]).None?
  }

  lemma ZeroFailuresBefore(reg: Registry, names: seq<string>, i: nat)
    requires i < |names| && reg.initFailure(names[i]).Some?
    requires InitSucceeds(reg, names, i)
    ensures FirstInitFailure(reg, names) == i
  {
    if i > 0 {
      ZeroFailuresBefore(reg, names[1..], i - 1);
    }
  }

  lemma NoFailure(reg: Registry, names: seq<string>)
    requires InitSucceeds(reg, names, |names|)
    ensures FirstInitFailure(reg, names) == |names|
  {
    if names != [] {
      NoFailure(reg, names[1..]);
    }
  }

  /** The second pass readies one more plugin. */
  lemma ReadyAllStep(base: map<string, Instance>, names: seq<string>, i: nat, deps: map<string, nat>, loaded: set<string>)
    requires i < |names| && names[i] in base
    ensures ReadyAll(base, names[..i + 1], deps, loaded) ==
            ReadyAll(base, names[..i], deps, loaded)[names[i] := Ready(base[names[i]], deps, loaded)]
  {
    assert names[..i + 1] == names[..i] + [names[i]];
  }

  /** Readying a plugin the pass already readied changes nothing. */
  lemma ReadyAgain(base: map<string, Instance>, done: seq<string>, n: string, deps: map<string, nat>, loaded: set<string>)
    requires n in base
    ensures Ready(ReadyAll(base, done, deps, loaded)[n], deps, loaded) == Ready(base[n], deps, loaded)
  {
    if n in done {
      ReadyTwice(base[n], deps, loaded);
    }
  }
}
