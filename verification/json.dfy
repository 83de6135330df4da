/** Decoded JSON values as the bot sees them after `response.json()`, and the
    handful of Python operations the bot applies to them: truthiness,
    `dict.get`, subscription and the `in` operator. Each operation that Python
    would reject with an exception returns `Raise` instead of a value. */
module Json {

  /** A decoded JSON document. Python decodes `null` to `None`, so `Null` also
      stands for `None` wherever the bot produces it. Numbers are integers. */
  datatype Json =
    | Null
    | Bool(b: bool)
    | Num(n: int)
    | Str(s: string)
    | Arr(items: seq<Json>)
    | Obj(fields: map<string, Json>)

  /** The Python exceptions the interpretation rules can raise. */
  datatype PyError = AttributeError | KeyError | TypeError

  /** A value, or the exception Python raises while computing it. */
  datatype Result<+T> = Ok(value: T) | Raise(error: PyError) {

    predicate IsFailure() {
      Raise?
    }

    function PropagateFailure<U>(): Result<U>
      requires Raise?
    {
      Raise(error)
    }

    function Extract(): T
      requires Ok?
    {
      value
    }
  }

  /** Python's truth value of a decoded JSON value (`if x:`). */
  predicate Truthy(j: Json) {
    match j
    case Null => false
    case Bool(b) => b
    case Num(n) => n != 0
    case Str(s) => s != ""
    case Arr(items) => items != []
    case Obj(fields) => fields != map[]
  }

  /** `j.get(key, default)`: only dictionaries have a `get` method. */
  function Get(j: Json, key: string, default: Json): Result<Json> {
    match j
    case Obj(fields) => Ok(if key in fields then fields[key] else default)
    case _ => Raise(AttributeError)
  }

  /** `j[key]` with a string key: a missing key raises `KeyError`; lists,
      strings, numbers, booleans and `None` reject a string subscript. */
  function Index(j: Json, key: string): Result<Json> {
    match j
    case Obj(fields) => if key in fields then Ok(fields[key]) else Raise(KeyError)
    case _ => Raise(TypeError)
  }

  /** `k` occurs as a contiguous piece of `s` (Python's `k in s` on strings). */
  predicate IsInfix(k: string, s: string)
    decreases |s|
  {
    k <= s || (s != [] && IsInfix(k, s[1..]))
  }

  /** `key in j`: key membership for a dictionary, element equality for a
      list, substring search for a string, and `TypeError` for the rest. */
  function Contains(j: Json, key: string): Result<bool> {
    match j
    case Obj(fields) => Ok(key in fields)
    case Arr(items) => Ok(Str(key) in items)
    case Str(s) => Ok(IsInfix(key, s))
    case _ => Raise(TypeError)
  }

  /** An object whose `"key"` maps to the string `value`. */
  predicate HasString(j: Json, key: string, value: string) {
    j.Obj? && key in j.fields && j.fields[key] == Str(value)
  }
}
