/**
 * The central configuration manager: the user configuration reconciled
 * strictly against the defaults (unknown keys dropped, missing keys added,
 * mistyped leaves reset), and dotted-path access to the in-memory
 * configuration. Reading and writing TOML files is outside the model: the
 * parsed default file is a parameter, `{}` when it cannot be read.
 */
module ConfigManagement {
  import opened Wrappers
  import opened Values
  import opened PyText

  // ------------------------------------------------------------------
  // reconcile

  /**
   * `reconcile(current, default)`. A leaf keeps the current value when it
   * has the default's type (or the default is `None`), unless it is `None`;
   * a dictionary keeps exactly the default's keys.
   */
  function Reconcile(current: Value, default: Value): (r: Value)
    decreases default
  {
    match default
    case VDict(dd) =>
      if current.VDict? then
        VDict(map k | k in dd :: if k in current.d then Reconcile(current.d[k], dd[k]) else dd[k])
      else default
    case _ =>
      if default.VNone? || IsInstance(current, TypeOf(default)) then
        (if current.VNone? then default else current)
      else default
  }

  /** A value that already has the defaults' shape: the same keys at every level, and leaves of the default's type. */
  predicate Conforms(v: Value, default: Value)
    decreases default
  {
    match default
    case VDict(dd) =>
      v.VDict? && v.d.Keys == dd.Keys && forall k :: k in dd ==> Conforms(v.d[k], dd[k])
    case _ =>
      default.VNone? || IsInstance(v, TypeOf(default))
  }

  /** How one leaf is settled. */
  lemma ReconcileLeaf(current: Value, default: Value)
    requires !default.VDict?
    ensures current.VNone? ==> Reconcile(current, default) == default
    ensures !current.VNone? && (default.VNone? || IsInstance(current, TypeOf(default))) ==>
              Reconcile(current, default) == current
    ensures !default.VNone? && !IsInstance(current, TypeOf(default)) ==> Reconcile(current, default) == default
  {
  }

  /** A non-dictionary where the defaults have a table is replaced by the whole default table. */
  lemma ReconcileReplacesSubtree(current: Value, default: Value)
    requires default.VDict? && !current.VDict?
    ensures Reconcile(current, default) == default
  {
  }

  /** The defaults conform to themselves. */
  lemma {:induction false} DefaultConforms(default: Value)
    ensures Conforms(default, default)
    decreases default
  {
    match default
    case VDict(dd) =>
      forall k | k in dd ensures Conforms(dd[k], dd[k]) {
        DefaultConforms(dd[k]);
      }
    case _ =>
      InstanceOfOwnType(default);
  }

  /** After reconciliation every level has exactly the defaults' keys, and every leaf the default's type. */
  lemma {:induction false} ReconcileConforms(current: Value, default: Value)
    ensures Conforms(Reconcile(current, default), default)
    decreases default
  {
    match default
    case VDict(dd) =>
      if current.VDict? {
        var r := Reconcile(current, default);
        forall k | k in dd ensures Conforms(r.d[k], dd[k]) {
          if k in current.d {
            ReconcileConforms(current.d[k], dd[k]);
          } else {
            DefaultConforms(dd[k]);
          }
        }
      } else {
        DefaultConforms(default);
      }
    case _ =>
      InstanceOfOwnType(default);
  }

  /** A value that already has the defaults' shape is left as it is. */
  lemma {:induction false} ConformingUnchanged(current: Value, default: Value)
    requires Conforms(current, default)
    ensures Reconcile(current, default) == current
    decreases default
  {
    match default
    case VDict(dd) =>
      var r := Reconcile(current, default);
      forall k | k in dd ensures r.d[k] == current.d[k] {
        ConformingUnchanged(current.d[k], dd[k]);
      }
    case _ =>
  }

  /** Reconciliation changes a value exactly when it does not have the defaults' shape. */
  lemma ReconcileFixedIff(current: Value, default: Value)
    ensures Reconcile(current, default) == current <==> Conforms(current, default)
  {
    ReconcileConforms(current, default);
    if Conforms(current, default) {
      ConformingUnchanged(current, default);
    }
  }

  /** Reconciling twice gives the same result as once. */
  lemma ReconcileIdempotent(current: Value, default: Value)
    ensures Reconcile(Reconcile(current, default), default) == Reconcile(current, default)
  {
    ReconcileConforms(current, default);
    ConformingUnchanged(Reconcile(current, default), default);
  }

  /** `_normalize_against_defaults`: a non-dictionary configuration starts from `{}`. */
  function NormalizeAgainstDefaults(cfg: Value, defaults: Dict): (r: Dict)
    ensures r.Keys == defaults.Keys
    ensures Conforms(VDict(r), VDict(defaults))
  {
    var start := if cfg.VDict? then cfg else VDict(map[]);
    ReconcileConforms(start, VDict(defaults));
    Reconcile(start, VDict(defaults)).d
  }

  // ------------------------------------------------------------------
  // dotted paths

  /** The value a key path leads to through nested dictionaries, if any. */
  function Walk(node: Value, keys: seq<string>): Option<Value> {
    if keys == [] then Some(node)
    else if !node.VDict? || keys[0] !in node.d then None
    else Walk(node.d[keys[0]], keys[1..])
  }

  /**
   * `node.setdefault(k, {})` along every key but the last, then the last key
   * assigned. `None` when an existing value on the way is not a dictionary,
   * where Python raises before anything has been created.
   */
  function SetPath(d: Dict, keys: seq<string>, v: Value): (r: Option<Dict>)
    requires |keys| >= 1
    ensures r.Some? ==> r.value.Keys == d.Keys + {keys[0]}
    ensures r.Some? ==> forall k :: k in d && k != keys[0] ==> r.value[k] == d[k]
    decreases |keys|
  {
    if |keys| == 1 then Some(d[keys[0] := v])
    else
      var child := if keys[0] in d then d[keys[0]] else VDict(map[]);
      if !child.VDict? then None
      else
        match SetPath(child.d, keys[1..], v)
        case None => None
        case Some(c) => Some(d[keys[0] := VDict(c)])
  }

  /** After a successful set, the path leads to the value set. */
  lemma {:induction false} WalkAfterSet(d: Dict, keys: seq<string>, v: Value)
    requires |keys| >= 1 && SetPath(d, keys, v).Some?
    ensures Walk(VDict(SetPath(d, keys, v).value), keys) == Some(v)
    decreases |keys|
  {
    if |keys| > 1 {
      var child := if keys[0] in d then d[keys[0]] else VDict(map[]);
      WalkAfterSet(child.d, keys[1..], v);
    }
  }

  /** No proper prefix of the path leads to a value that is not a dictionary. */
  predicate OpenPath(d: Dict, keys: seq<string>) {
    forall i :: 1 <= i < |keys| ==> Walk(VDict(d), keys[..i]).None? || Walk(VDict(d), keys[..i]).value.VDict?
  }

  lemma WalkFirst(d: Dict, keys: seq<string>, i: nat)
    requires 1 <= i <= |keys|
    ensures Walk(VDict(d), keys[..i]) == if keys[0] in d then Walk(d[keys[0]], keys[1..][..i - 1]) else None
  {
    assert keys[..i][0] == keys[0];
    assert keys[..i][1..] == keys[1..][..i - 1];
  }

  lemma WalkAbsent(keys: seq<string>)
    requires |keys| >= 1
    ensures Walk(VDict(map[]), keys) == None
  {
  }

  /** A set fails exactly when an existing value on the way is not a dictionary. */
  lemma {:induction false} SetPathSucceedsIff(d: Dict, keys: seq<string>, v: Value)
    requires |keys| >= 1
    ensures SetPath(d, keys, v).Some? <==> OpenPath(d, keys)
    decreases |keys|
  {
    if |keys| > 1 {
      var k0 := keys[0];
      var child := if k0 in d then d[k0] else VDict(map[]);
      WalkFirst(d, keys, 1);
      assert keys[1..][..0] == [];
      if child.VDict? {
        SetPathSucceedsIff(child.d, keys[1..], v);
        forall i | 1 <= i < |keys|
          ensures (Walk(VDict(d), keys[..i]).None? || Walk(VDict(d), keys[..i]).value.VDict?)
              <==> (i == 1 || Walk(VDict(child.d), keys[1..][..i - 1]).None? || Walk(VDict(child.d), keys[1..][..i - 1]).value.VDict?)
        {
          WalkFirst(d, keys, i);
          if i > 1 && k0 !in d {
            WalkAbsent(keys[1..][..i - 1]);
          }
        }
        if !OpenPath(child.d, keys[1..]) {
          var j :| 1 <= j < |keys[1..]| && !(Walk(VDict(child.d), keys[1..][..j]).None? || Walk(VDict(child.d), keys[1..][..j]).value.VDict?);
          assert !(Walk(VDict(d), keys[..j + 1]).None? || Walk(VDict(d), keys[..j + 1]).value.VDict?);
        }
      } else {
        assert !(Walk(VDict(d), keys[..1]).None? || Walk(VDict(d), keys[..1]).value.VDict?);
      }
    }
  }

  /** Setting a fresh top-level key always succeeds. */
  lemma SetFreshSucceeds(d: Dict, keys: seq<string>, v: Value)
    requires |keys| >= 1 && keys[0] !in d
    ensures SetPath(d, keys, v).Some?
  {
    SetPathSucceedsIff(d, keys, v);
    forall i | 1 <= i < |keys| ensures Walk(VDict(d), keys[..i]).None? {
      WalkFirst(d, keys, i);
    }
  }

  // ------------------------------------------------------------------
  // the manager

  class ConfigManager {
    var config: Dict

    constructor()
      ensures config == map[]
    {
      config := map[];
    }

    /** `load`, given the parsed file (the latest configuration, or else the default one). */
    method Load(read: Dict, defaults: Dict) returns (r: Dict)
      modifies this
      ensures config == NormalizeAgainstDefaults(VDict(read), defaults) && r == config
    {
      config := NormalizeAgainstDefaults(VDict(read), defaults);
      r := config;
    }

    /** `save`: the configuration is normalised, then written; returns what is written. */
    method Save(defaults: Dict) returns (written: Dict)
      modifies this
      ensures config == NormalizeAgainstDefaults(VDict(old(config)), defaults) && written == config
    {
      config := NormalizeAgainstDefaults(VDict(config), defaults);
      written := config;
    }

    /** `get`: the value at the dotted path, or the default when a segment is missing or a non-dictionary is met. */
    method Get(dottedPath: string, dflt: Value) returns (r: Value)
      ensures var found := Walk(VDict(config), SplitOn(dottedPath, '.'));
        r == if found.Some? then found.value else dflt
    {
      var keys := SplitOn(dottedPath, '.');
      var node := VDict(config);
      for i := 0 to |keys|
        invariant Walk(node, keys[i..]) == Walk(VDict(config), keys)
      {
        assert keys[i..][1..] == keys[i + 1..];
        if !node.VDict? || keys[i] !in node.d {
          return dflt;
        }
        node := node.d[keys[i]];
      }
      assert keys[|keys|..] == [];
      r := node;
    }

    /** `set`: intermediate dictionaries are created as needed; a non-dictionary on the way raises and changes nothing. */
    method Set(dottedPath: string, value: Value) returns (r: Result<()>)
      modifies this
      ensures var keys := SplitOn(dottedPath, '.');
        r.Success? <==> OpenPath(old(config), keys)
      ensures r.Success? ==> SetPath(old(config), SplitOn(dottedPath, '.'), value) == Some(config)
      ensures r.Failure? ==> config == old(config)
    {
      var keys := SplitOn(dottedPath, '.');
      SetPathSucceedsIff(config, keys, value);
      match SetPath(config, keys, value)
      case None =>
        r := Failure("'" + dottedPath + "' passes through a value that is not a dictionary");
      case Some(c) =>
        config := c;
        r := Success(());
    }

    /** `set_config`: a non-dictionary is stored as `{}`. */
    method SetConfig(cfg: Value)
      modifies this
      ensures config == if cfg.VDict? then cfg.d else map[]
    {
      config := if cfg.VDict? then cfg.d else map[];
    }
  }

  /** After `set(p, v)` succeeds, `get(p)` returns `v`. */
  lemma GetAfterSet(d: Dict, dottedPath: string, v: Value)
    requires SetPath(d, SplitOn(dottedPath, '.'), v).Some?
    ensures Walk(VDict(SetPath(d, SplitOn(dottedPath, '.'), v).value), SplitOn(dottedPath, '.')) == Some(v)
  {
    WalkAfterSet(d, SplitOn(dottedPath, '.'), v);
  }
}
