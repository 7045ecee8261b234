/**
  A decoded JSON document as Python holds it after `json.loads`, and the handful of Python
  operations the core applies to it: `v[key]`, `v[0]`, `v.get(key, default)`, truthiness,
  `str(v)`, the `in` operator and `for` iteration. Each operation fails with the exception
  Python raises when the value has the wrong shape.
 */
module Json {
  import opened Wrappers
  import Numbers
  import Strings

  datatype Value =
    | Null
    | Bool(b: bool)
    | Num(n: int)
    | Str(s: string)
    | Arr(items: seq<Value>)
    | Obj(fields: map<string, Value>)

  /** The built-in exceptions the core's JSON handling can raise. */
  datatype PyError = KeyError | IndexError | TypeError | AttributeError | ValueError

  /** `v[k]` for a string key: only an object can be indexed by a string. */
  function Key(v: Value, k: string): Result<Value, PyError> {
    match v
    case Obj(fields) => if k in fields then Success(fields[k]) else Failure(KeyError)
    case _ => Failure(TypeError)
  }

  /** `v[i]` for an index `i >= 0`: a list gives its item, a string its character. */
  function At(v: Value, i: nat): Result<Value, PyError> {
    match v
    case Arr(items) => if i < |items| then Success(items[i]) else Failure(IndexError)
    case Str(s) => if i < |s| then Success(Str([s[i]])) else Failure(IndexError)
    case Obj(_) => Failure(KeyError)  // decoded JSON objects have string keys only
    case _ => Failure(TypeError)
  }

  /** `d.get(k, default)` on a decoded object. */
  function Field(fields: map<string, Value>, k: string, default: Value): Value {
    if k in fields then fields[k] else default
  }

  /** `v.get(k, default)`: only an object has a `get` method. */
  function Get(v: Value, k: string, default: Value): Result<Value, PyError> {
    if v.Obj? then Success(Field(v.fields, k, default)) else Failure(AttributeError)
  }

  /** Python truthiness: `None`, `False`, `0` and empty strings, lists and objects are false. */
  predicate Truthy(v: Value) {
    match v
    case Null => false
    case Bool(b) => b
    case Num(n) => n != 0
    case Str(s) => s != ""
    case Arr(items) => items != []
    case Obj(fields) => fields != map[]
  }

  /** `str(v)`, which is also what an f-string inserts. Lists and objects give "" (see README). */
  function Text(v: Value): string {
    match v
    case Null => "None"
    case Bool(b) => if b then "True" else "False"
    case Num(n) => Numbers.IntToDecimal(n)
    case Str(s) => s
    case _ => ""
  }

  /** `needle in v` for a string needle. */
  function Contains(v: Value, needle: string): Result<bool, PyError> {
    match v
    case Arr(items) => Success(Str(needle) in items)
    case Str(s) => Success(Strings.HasInfix(s, needle))
    case Obj(fields) => Success(needle in fields)
    case _ => Failure(TypeError)
  }

  /** How the body of a `for` loop first touches each item: `item[key]` or `item.get(key)`. */
  datatype Access = Subscript | Method

  /**
    The items a `for` loop over `v` visits, for a loop whose body starts by looking up a string
    key in the item. Iterating an object yields its keys and a string its characters; both are
    strings, so such a body fails on the first of them: `str[key]` raises TypeError and
    `str.get` raises AttributeError. `None`, numbers and booleans are not iterable.
   */
  function Elements(v: Value, access: Access): (r: Result<seq<Value>, PyError>)
    ensures r.Success? && r.value != [] ==> v == Arr(r.value)
  {
    match v
    case Arr(items) => Success(items)
    case Obj(fields) => if fields == map[] then Success([]) else Failure(StringItemError(access))
    case Str(s) => if s == "" then Success([]) else Failure(StringItemError(access))
    case _ => Failure(TypeError)
  }

  function StringItemError(access: Access): PyError {
    if access == Subscript then TypeError else AttributeError
  }

  predicate IsNumber(v: Value) {
    v.Num? || v.Bool?
  }

  /** The integer a number stands for in comparisons: `True` is 1 and `False` is 0. */
  function Number(v: Value): int
    requires IsNumber(v)
  {
    if v.Num? then v.n else if v.b then 1 else 0
  }
}
