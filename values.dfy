/**
 * Configuration values as Python holds them after loading TOML or JSON:
 * scalars, lists and string-keyed dictionaries, with Python's truthiness,
 * `isinstance` checks and the recursive dictionary merge that both the
 * plugin configuration manager and the TOML loader implement.
 */
module Values {

  datatype Value =
    | VNone
    | VBool(b: bool)
    | VInt(i: int)
    | VFloat(f: real)
    | VStr(s: string)
    | VList(items: seq<Value>)
    | VDict(d: map<string, Value>)

  type Dict = map<string, Value>

  /** Python's built-in types that the configuration code names. */
  datatype PyType = TNoneType | TBool | TInt | TFloat | TStr | TList | TDict

  /** `type(v)` */
  function TypeOf(v: Value): PyType {
    match v
    case VNone => TNoneType
    case VBool(_) => TBool
    case VInt(_) => TInt
    case VFloat(_) => TFloat
    case VStr(_) => TStr
    case VList(_) => TList
    case VDict(_) => TDict
  }

  /** `isinstance(v, t)`: exact type, except that `bool` is a subclass of `int`. */
  predicate IsInstance(v: Value, t: PyType) {
    TypeOf(v) == t || (t == TInt && v.VBool?)
  }

  /** An object is an instance of its own type. */
  lemma InstanceOfOwnType(v: Value)
    ensures IsInstance(v, TypeOf(v))
  {
  }

  /** `bool(v)` */
  predicate Truthy(v: Value) {
    match v
    case VNone => false
    case VBool(b) => b
    case VInt(i) => i != 0
    case VFloat(f) => f != 0.0
    case VStr(s) => s != ""
    case VList(items) => items != []
    case VDict(d) => d != map[]
  }

  /** `d.get(k, dflt)` */
  function Get(d: Dict, k: string, dflt: Value): Value {
    if k in d then d[k] else dflt
  }

  /**
   * The recursive merge: keys of both, the override's value wins, except that
   * two dictionaries under the same key are merged in turn. The base is a value,
   * so it is never changed.
   */
  function Merge(base: Dict, over: Dict): (r: Dict)
    ensures r.Keys == base.Keys + over.Keys
    decreases VDict(over)
  {
    map k | k in base.Keys + over.Keys ::
      if k in over then
        (if k in base && base[k].VDict? && over[k].VDict? then VDict(Merge(base[k].d, over[k].d))
         else over[k])
      else base[k]
  }

  /** Keys only in the base keep their value. */
  lemma MergeKeepsBase(base: Dict, over: Dict, k: string)
    requires k in base && k !in over
    ensures Merge(base, over)[k] == base[k]
  {
  }

  /** The override wins whenever the two sides are not both dictionaries. */
  lemma MergeOverrideWins(base: Dict, over: Dict, k: string)
    requires k in over && !(k in base && base[k].VDict? && over[k].VDict?)
    ensures Merge(base, over)[k] == over[k]
  {
  }

  /** Two dictionaries under one key merge recursively. */
  lemma MergeNested(base: Dict, over: Dict, k: string)
    requires k in base && k in over && base[k].VDict? && over[k].VDict?
    ensures Merge(base, over)[k] == VDict(Merge(base[k].d, over[k].d))
  {
  }

  /** Merging an empty override returns the base. */
  lemma MergeEmptyOverride(base: Dict)
    ensures Merge(base, map[]) == base
  {
  }

  /** Merging into an empty base returns the override. */
  lemma MergeEmptyBase(over: Dict)
    ensures Merge(map[], over) == over
  {
  }

  /** Merging a dictionary into itself changes nothing. */
  lemma {:induction false} MergeSelf(m: Dict)
    ensures Merge(m, m) == m
    decreases VDict(m)
  {
    forall k | k in m ensures Merge(m, m)[k] == m[k] {
      if m[k].VDict? {
        MergeSelf(m[k].d);
      }
    }
  }

  /** Applying the same override twice is applying it once. */
  lemma {:induction false} MergeIdempotent(base: Dict, over: Dict)
    ensures Merge(Merge(base, over), over) == Merge(base, over)
    decreases VDict(over)
  {
    var r := Merge(base, over);
    forall k | k in r ensures Merge(r, over)[k] == r[k] {
      if k in over {
        if k in base && base[k].VDict? && over[k].VDict? {
          MergeIdempotent(base[k].d, over[k].d);
        } else if over[k].VDict? {
          MergeSelf(over[k].d);
        }
      }
    }
  }
}
