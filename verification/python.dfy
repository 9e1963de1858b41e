/**
 * The slice of Python's object model that the declarations, the parsed
 * namespace and the prompts use: values with their truthiness, the
 * exceptions the core raises, and the ways a run can end.
 */
module Python {
  import opened Wrappers

  /** A Python value. */
  datatype Value =
    | PyNone
    | PyBool(b: bool)
    | PyInt(i: int)
    | PyStr(s: string)
    | PyList(items: seq<Value>)
    | PyDict(entries: map<string, Value>)
      /** A class object such as `int` or `str`; `isStringType` holds for
          `str`, `unicode` and their subclasses (`six.string_types`). */
    | PyClass(qualname: string, isStringType: bool)
      /** Any other object, e.g. a validator instance built by a factory of
          `paternoster.types` from keyword arguments. */
    | PyObject(cls: string, kwargs: map<string, Value>)

  /** A dictionary with string keys, such as one parameter declaration. */
  type Dict = map<string, Value>

  /** Python's truth test: `bool(v)`. */
  predicate Truthy(v: Value)
  {
    match v
    case PyNone => false
    case PyBool(b) => b
    case PyInt(i) => i != 0
    case PyStr(s) => s != ""
    case PyList(items) => items != []
    case PyDict(entries) => entries != map[]
    case PyClass(_, _) => true
    case PyObject(_, _) => true
  }

  /** `d.get(key, default)` */
  function Get(d: Dict, key: string, default: Value): Value
  {
    if key in d then d[key] else default
  }

  /** The exceptions the core raises or lets through. */
  datatype Error =
    | KeyError(key: string)
    | AttributeError(attr: string)
    | TypeError
    | ValueError(arg: Value)
    | Exception(msg: string)
    | EOFError

  /**
   * How a run stops early: `sys.exit(code)` (or argparse's `parser.error`,
   * which exits with 2) after writing `message` to stderr, or an exception
   * nobody catches (Python then prints a traceback and exits with 1).
   */
  datatype Halt = Exit(code: int, message: Value) | Raise(error: Error)

  predicate DistinctNames(attrs: seq<(string, Value)>)
  {
    forall i, j :: 0 <= i < j < |attrs| ==> attrs[i].0 != attrs[j].0
  }

  /**
   * An `argparse.Namespace`: its attributes in the order `vars()` lists
   * them, each name once.
   */
  type Namespace = attrs: seq<(string, Value)> | DistinctNames(attrs)

  /** `getattr(ns, name)`: the attribute's value, or None when it is missing. */
  function GetAttr(ns: seq<(string, Value)>, name: string): (r: Option<Value>)
    ensures r.None? <==> forall i :: 0 <= i < |ns| ==> ns[i].0 != name
    ensures r.Some? ==> exists i :: 0 <= i < |ns| && ns[i] == (name, r.value)
  {
    if ns == [] then None
    else if ns[0].0 == name then Some(ns[0].1)
    else GetAttr(ns[1..], name)
  }

  /** `getattr(ns, name, None)` */
  function GetAttrOrNone(ns: Namespace, name: string): Value
  {
    match GetAttr(ns, name)
    case Some(v) => v
    case None => PyNone
  }
}
