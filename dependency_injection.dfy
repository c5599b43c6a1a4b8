/**
 * The dependency-injection container of the plugin platform: four maps of
 * services, singletons, factories and aliases; one level of alias
 * resolution; factories whose first product is cached as a singleton. And
 * the injector, which hands the services a target asks for to the target.
 */
module DependencyInjection {
  import opened Wrappers
  import opened Values
  import PluginBase

  /** a registered factory: a call that builds the service */
  type Factory = () -> Value

  class DependencyContainer {
    var services: map<string, Value>
    var singletons: map<string, Value>
    var factories: map<string, Factory>
    var aliases: map<string, string>
    /** the names whose factory was called, in call order */
    ghost var factoryRuns: seq<string>

    /** `__init__`: all four registries empty */
    constructor()
      ensures services == map[] && singletons == map[] && factories == map[] && aliases == map[]
      ensures factoryRuns == []
    {
      services, singletons, factories, aliases := map[], map[], map[], map[];
      factoryRuns := [];
    }

    /** `self._aliases.get(name, name)`: one level of aliasing, never followed further */
    function Resolve(name: string): string
      reads this
    {
      if name in aliases then aliases[name] else name
    }

    /** `has` */
    predicate Has(name: string)
      reads this
    {
      var actual := Resolve(name);
      actual in services || actual in factories || actual in singletons
    }

    /** the object `get` hands out: the singleton, else the factory's product, else the service */
    function Lookup(name: string): Value
      reads this
      requires Has(name)
    {
      var actual := Resolve(name);
      if actual in singletons then singletons[actual]
      else if actual in factories then factories[actual]()
      else services[actual]
    }

    /** `register_singleton`: the instance goes into services and singletons alike */
    method RegisterSingleton(name: string, instance: Value)
      modifies this
      ensures services == old(services)[name := instance] && singletons == old(singletons)[name := instance]
      ensures factories == old(factories) && aliases == old(aliases) && factoryRuns == old(factoryRuns)
    {
      services := services[name := instance];
      singletons := singletons[name := instance];
    }

    /** `register_factory` */
    method RegisterFactory(name: string, factory: Factory)
      modifies this
      ensures factories == old(factories)[name := factory]
      ensures services == old(services) && singletons == old(singletons) && aliases == old(aliases)
      ensures factoryRuns == old(factoryRuns)
    {
      factories := factories[name := factory];
    }

    /** `register_alias` */
    method RegisterAlias(alias: string, target: string)
      modifies this
      ensures aliases == old(aliases)[alias := target]
      ensures services == old(services) && singletons == old(singletons) && factories == old(factories)
      ensures factoryRuns == old(factoryRuns)
    {
      aliases := aliases[alias := target];
    }

    /**
     * `get`: fails with `KeyError` exactly when `has` is false. A factory is
     * called only when no singleton of that name exists yet, and its product
     * is cached, so what every name resolves to stays the same.
     */
    method Get(name: string) returns (r: Result<Value>)
      modifies this
      ensures r.Success? <==> old(Has(name))
      ensures r.Success? ==> r.value == old(Lookup(name))
      ensures var actual := old(Resolve(name));
        if r.Success? && actual !in old(singletons) && actual in old(factories) then
          singletons == old(singletons)[actual := r.value] && factoryRuns == old(factoryRuns) + [actual]
        else
          singletons == old(singletons) && factoryRuns == old(factoryRuns)
      ensures services == old(services) && factories == old(factories) && aliases == old(aliases)
      ensures forall n :: old(Has(n)) <==> Has(n)
      ensures forall n :: old(Has(n)) ==> Lookup(n) == old(Lookup(n))
    {
      var actual := if name in aliases then aliases[name] else name;
      if actual in singletons {
        return Success(singletons[actual]);
      }
      if actual in factories {
        var instance := factories[actual]();
        singletons := singletons[actual := instance];
        factoryRuns := factoryRuns + [actual];
        return Success(instance);
      }
      if actual in services {
        return Success(services[actual]);
      }
      return Failure("Service '" + name + "' not found");
    }

    /** `get_typed`: `get`, then `TypeError` unless the object has the expected type */
    method GetTyped(name: string, serviceType: PyType) returns (r: Result<Value>)
      modifies this
      ensures r.Success? <==> old(Has(name)) && IsInstance(old(Lookup(name)), serviceType)
      ensures r.Success? ==> r.value == old(Lookup(name))
      ensures services == old(services) && factories == old(factories) && aliases == old(aliases)
    {
      var instance := Get(name);
      if instance.Failure? {
        return instance;
      }
      if !IsInstance(instance.value, serviceType) {
        return Failure("Service '" + name + "' is not of type " + PluginBase.TypeName(serviceType));
      }
      return instance;
    }

    /** `list_services`: service, factory and alias names; singletons only through services */
    function ListServices(): set<string>
      reads this
    {
      services.Keys + factories.Keys + aliases.Keys
    }

    /** what `get` hands out for each of `names` that `has` accepts */
    function Provided(names: set<string>): (r: map<string, Value>)
      reads this
      ensures r.Keys == set n | n in names && Has(n)
      ensures forall n :: n in r ==> r[n] == Lookup(n)
    {
      map n | n in names && Has(n) :: Lookup(n)
    }

    /**
     * `remove`: the resolved name leaves all three registries, and so does
     * every alias pointing to it; other registrations stay.
     */
    method Remove(name: string)
      modifies this
      ensures var actual := old(Resolve(name));
        services == old(services) - {actual} && singletons == old(singletons) - {actual} &&
        factories == old(factories) - {actual} &&
        aliases == (map a | a in old(aliases) && old(aliases)[a] != actual :: old(aliases)[a])
      ensures factoryRuns == old(factoryRuns)
    {
      var actual := if name in aliases then aliases[name] else name;
      services := services - {actual};
      singletons := singletons - {actual};
      factories := factories - {actual};
      var aliasesToRemove := set a | a in aliases && aliases[a] == actual;
      ghost var kept := map a | a in aliases && aliases[a] != actual :: aliases[a];
      ghost var services', singletons', factories' := services, singletons, factories;
      while aliasesToRemove != {}
        invariant services == services' && singletons == singletons' && factories == factories'
        invariant factoryRuns == old(factoryRuns)
        invariant aliasesToRemove <= aliases.Keys
        invariant forall a :: a in aliases ==> a in aliasesToRemove || a in kept
        invariant forall a :: a in kept ==> a in aliases && aliases[a] == kept[a] && a !in aliasesToRemove
        decreases aliasesToRemove
      {
        var alias :| alias in aliasesToRemove;
        aliases := aliases - {alias};
        aliasesToRemove := aliasesToRemove - {alias};
      }
      assert aliases == kept;
    }

    /** `clear`: all four registries emptied */
    method Clear()
      modifies this
      ensures services == map[] && singletons == map[] && factories == map[] && aliases == map[]
      ensures factoryRuns == old(factoryRuns)
    {
      services, singletons, factories, aliases := map[], map[], map[], map[];
    }
  }

  /**
   * An object receiving dependencies: through `set_dependency` when it has
   * one, else as an attribute it already has.
   */
  class Target {
    /** `hasattr(target, "set_dependency")` */
    const hasSetter: bool
    /** `plugin.dependencies`, when it has that attribute */
    const declared: seq<string>
    /** what `set_dependency` received */
    var injected: map<string, Value>
    /** the target's attributes */
    var attributes: map<string, Value>

    constructor(hasSetter: bool, declared: seq<string>, attributes: map<string, Value>)
      ensures this.hasSetter == hasSetter && this.declared == declared
      ensures this.attributes == attributes && injected == map[]
    {
      this.hasSetter := hasSetter;
      this.declared := declared;
      this.attributes := attributes;
      injected := map[];
    }
  }

  /** where a dependency ends up in a target: set through `set_dependency`, as an attribute, or nowhere */
  predicate Receives(hasSetter: bool, attributes: set<string>, name: string) {
    hasSetter || name in attributes
  }

  /** the target holds `v` under `n`: as received by its setter, or as its attribute */
  predicate Delivered(hasSetter: bool, injected: map<string, Value>, attributes: map<string, Value>, n: string, v: Value) {
    if hasSetter then n in injected && injected[n] == v
    else n in attributes && attributes[n] == v
  }

  /** what a target's setter has received once `provided` is injected: the new entries win */
  function InjectedAfter(hasSetter: bool, injected: map<string, Value>, provided: map<string, Value>): (r: map<string, Value>) {
    if hasSetter then injected + provided else injected
  }

  /** a target's attributes once `provided` is injected: only attributes it already has are overwritten */
  function AttributesAfter(hasSetter: bool, attributes: map<string, Value>, provided: map<string, Value>): (r: map<string, Value>) {
    if hasSetter then attributes else map k | k in attributes :: if k in provided then provided[k] else attributes[k]
  }

  /** the names in a list */
  function Elems(names: seq<string>): (r: set<string>)
    ensures forall n :: n in r <==> n in names
  {
    set k | 0 <= k < |names| :: names[k]
  }

  /** the entries of `m` under the keys `ks` */
  function Restrict(m: map<string, Value>, ks: set<string>): (r: map<string, Value>)
    ensures r.Keys == m.Keys * ks
    ensures forall k :: k in r ==> r[k] == m[k]
  {
    map k | k in m && k in ks :: m[k]
  }

  /** Injecting delivers every provided name the target can take, with the provided object. */
  lemma InjectionDelivers(hasSetter: bool, injected: map<string, Value>, attributes: map<string, Value>,
                          provided: map<string, Value>, n: string)
    requires n in provided && Receives(hasSetter, attributes.Keys, n)
    ensures Delivered(hasSetter, InjectedAfter(hasSetter, injected, provided),
                      AttributesAfter(hasSetter, attributes, provided), n, provided[n])
  {
  }

  /**
   * Injecting touches nothing but the provided names: no attribute is
   * created, and an entry or attribute outside `provided` keeps its value.
   */
  lemma InjectionOnlyProvided(hasSetter: bool, injected: map<string, Value>, attributes: map<string, Value>,
                              provided: map<string, Value>)
    ensures var inj, attrs := InjectedAfter(hasSetter, injected, provided), AttributesAfter(hasSetter, attributes, provided);
      && inj.Keys <= injected.Keys + provided.Keys
      && (forall n :: n in injected && n !in provided ==> inj[n] == injected[n])
      && attrs.Keys == attributes.Keys
      && (forall n :: n in attributes && n !in provided ==> attrs[n] == attributes[n])
  {
  }

  /** Injecting the same objects twice changes nothing the first injection did not. */
  lemma InjectionIdempotent(hasSetter: bool, injected: map<string, Value>, attributes: map<string, Value>,
                            provided: map<string, Value>)
    ensures InjectedAfter(hasSetter, InjectedAfter(hasSetter, injected, provided), provided)
      == InjectedAfter(hasSetter, injected, provided)
    ensures AttributesAfter(hasSetter, AttributesAfter(hasSetter, attributes, provided), provided)
      == AttributesAfter(hasSetter, attributes, provided)
  {
  }

  /** one more provided object: one more update, where the target can take it */
  lemma InjectionStep(hasSetter: bool, injected: map<string, Value>, attributes: map<string, Value>,
                      provided: map<string, Value>, x: string, v: Value)
    ensures InjectedAfter(hasSetter, injected, provided[x := v]) ==
      if hasSetter then InjectedAfter(hasSetter, injected, provided)[x := v] else injected
    ensures AttributesAfter(hasSetter, attributes, provided[x := v]) ==
      if !hasSetter && x in attributes then AttributesAfter(hasSetter, attributes, provided)[x := v]
      else AttributesAfter(hasSetter, attributes, provided)
  {
  }

  /** one more key asked for: the restriction gains that entry, if `m` has it */
  lemma RestrictStep(m: map<string, Value>, ks: set<string>, x: string)
    ensures Restrict(m, ks + {x}) == if x in m then Restrict(m, ks)[x := m[x]] else Restrict(m, ks)
  {
  }

  class DependencyInjector {
    const container: DependencyContainer

    constructor(container: DependencyContainer)
      ensures this.container == container
    {
      this.container := container;
    }

    /**
     * `inject_into`: each named dependency the container has is handed to
     * the target (through its setter, else as an existing attribute); a name
     * the container lacks, or one the target cannot take, is skipped.
     * Without a list every name of `list_services` is tried.
     */
    method InjectInto(target: Target, dependencies: Option<seq<string>>)
      requires target != container as object
      modifies container, target
      ensures container.services == old(container.services) && container.factories == old(container.factories)
      ensures container.aliases == old(container.aliases)
      ensures forall n :: container.Has(n) <==> old(container.Has(n))
      ensures forall n :: old(container.Has(n)) ==> container.Lookup(n) == old(container.Lookup(n))
      ensures var names := if dependencies.Some? then Elems(dependencies.value) else old(container.ListServices());
        && target.injected == InjectedAfter(target.hasSetter, old(target.injected), old(container.Provided(names)))
        && target.attributes == AttributesAfter(target.hasSetter, old(target.attributes), old(container.Provided(names)))
      ensures var names := if dependencies.Some? then Elems(dependencies.value) else old(container.ListServices());
        forall n :: n in names && old(container.Has(n)) && Receives(target.hasSetter, old(target.attributes.Keys), n) ==>
          Delivered(target.hasSetter, target.injected, target.attributes, n, old(container.Lookup(n)))
    {
      var names: seq<string>;
      if dependencies.Some? {
        names := dependencies.value;
      } else {
        names := SeqOfSet(container.ListServices());
        assert Elems(names) == container.ListServices();
      }
      InjectEach(target, names);
    }

    /** the loop of `inject_into`: each name in turn */
    method InjectEach(target: Target, names: seq<string>)
      requires target != container as object
      modifies container, target
      ensures container.services == old(container.services) && container.factories == old(container.factories)
      ensures container.aliases == old(container.aliases)
      ensures forall n :: container.Has(n) <==> old(container.Has(n))
      ensures forall n :: old(container.Has(n)) ==> container.Lookup(n) == old(container.Lookup(n))
      ensures target.injected == InjectedAfter(target.hasSetter, old(target.injected), old(container.Provided(Elems(names))))
      ensures target.attributes == AttributesAfter(target.hasSetter, old(target.attributes), old(container.Provided(Elems(names))))
      ensures forall n :: n in names && old(container.Has(n)) && Receives(target.hasSetter, old(target.attributes.Keys), n) ==>
          Delivered(target.hasSetter, target.injected, target.attributes, n, old(container.Lookup(n)))
    {
      ghost var avail := container.Provided(Elems(names));
      for i := 0 to |names|
        invariant container.services == old(container.services) && container.factories == old(container.factories)
        invariant container.aliases == old(container.aliases)
        invariant forall n :: old(container.Has(n)) <==> container.Has(n)
        invariant forall n :: old(container.Has(n)) ==> container.Lookup(n) == old(container.Lookup(n))
        invariant target.injected == InjectedAfter(target.hasSetter, old(target.injected), Restrict(avail, Elems(names[..i])))
        invariant target.attributes == AttributesAfter(target.hasSetter, old(target.attributes), Restrict(avail, Elems(names[..i])))
      {
        assert Elems(names[..i + 1]) == Elems(names[..i]) + {names[i]} by {
          assert names[..i + 1] == names[..i] + [names[i]];
        }
        RestrictStep(avail, Elems(names[..i]), names[i]);
        ghost var done := Restrict(avail, Elems(names[..i]));
        if names[i] in avail {
          InjectionStep(target.hasSetter, old(target.injected), old(target.attributes), done, names[i], avail[names[i]]);
        }
        InjectOne(target, names[i]);
      }
      assert names[..|names|] == names;
      assert Restrict(avail, Elems(names)) == avail;
      forall n | n in names && old(container.Has(n)) && Receives(target.hasSetter, old(target.attributes.Keys), n)
        ensures Delivered(target.hasSetter, target.injected, target.attributes, n, old(container.Lookup(n)))
      {
        InjectionDelivers(target.hasSetter, old(target.injected), old(target.attributes), avail, n);
      }
    }

    /** one step of `inject_into`: the named dependency, when the container has it */
    method InjectOne(target: Target, depName: string)
      requires target != container as object
      modifies container, target
      ensures container.services == old(container.services) && container.factories == old(container.factories)
      ensures container.aliases == old(container.aliases)
      ensures forall n :: container.Has(n) <==> old(container.Has(n))
      ensures forall n :: old(container.Has(n)) ==> container.Lookup(n) == old(container.Lookup(n))
      ensures target.hasSetter ==> target.attributes == old(target.attributes)
      ensures target.hasSetter ==>
        target.injected == (if old(container.Has(depName)) then old(target.injected)[depName := old(container.Lookup(depName))]
                            else old(target.injected))
      ensures !target.hasSetter ==> target.injected == old(target.injected)
      ensures !target.hasSetter ==>
        target.attributes == (if old(container.Has(depName)) && depName in old(target.attributes)
                              then old(target.attributes)[depName := old(container.Lookup(depName))]
                              else old(target.attributes))
    {
      if container.Has(depName) {
        var depInstance := container.Get(depName);
        if target.hasSetter {
          target.injected := target.injected[depName := depInstance.value];
        } else if depName in target.attributes {
          target.attributes := target.attributes[depName := depInstance.value];
        }
      }
    }

    /** `inject_into_plugin`: the plugin's declared dependencies when it lists any, otherwise everything */
    method InjectIntoPlugin(plugin: Target)
      requires plugin != container as object
      modifies container, plugin
      ensures container.services == old(container.services) && container.factories == old(container.factories)
      ensures container.aliases == old(container.aliases)
      ensures forall n :: container.Has(n) <==> old(container.Has(n))
      ensures forall n :: old(container.Has(n)) ==> container.Lookup(n) == old(container.Lookup(n))
      ensures var names := if plugin.declared != [] then Elems(plugin.declared) else old(container.ListServices());
        && plugin.injected == InjectedAfter(plugin.hasSetter, old(plugin.injected), old(container.Provided(names)))
        && plugin.attributes == AttributesAfter(plugin.hasSetter, old(plugin.attributes), old(container.Provided(names)))
      ensures var names := if plugin.declared != [] then Elems(plugin.declared) else old(container.ListServices());
        forall n :: n in names && old(container.Has(n)) && Receives(plugin.hasSetter, old(plugin.attributes.Keys), n) ==>
          Delivered(plugin.hasSetter, plugin.injected, plugin.attributes, n, old(container.Lookup(n)))
    {
      if plugin.declared != [] {
        InjectInto(plugin, Some(plugin.declared));
      } else {
        InjectInto(plugin, None);
      }
    }
  }

  /** `list(s)`: the elements of a set in some order */
  method SeqOfSet(s: set<string>) returns (r: seq<string>)
    ensures forall x :: x in s <==> x in r
  {
    r := [];
    var rest := s;
    while rest != {}
      invariant forall x :: x in s <==> x in r || x in rest
      invariant forall x :: x in rest ==> x in s
      decreases rest
    {
      var x :| x in rest;
      r := r + [x];
      rest := rest - {x};
    }
  }
}
