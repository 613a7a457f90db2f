/**
 * Python dictionaries of log fields, as the parser, the classifier and the
 * clustering helper see them: string keys and loosely typed values.
 */
module Records {

  /** A field value: `None`, a bool, an int, a float or a string. */
  datatype Value = Null | Bool(b: bool) | Int(i: int) | Real(r: real) | Str(s: string)

  /** A `dict` from field names to values. */
  type Record = map<string, Value>

  /** `d.get(k, default)`. */
  function Get(d: Record, k: string, default: Value): Value {
    if k in d then d[k] else default
  }

  /**
   * The representative of v's class under Python's `==`, which is what a
   * `dict` uses to find a key: `True == 1`, `False == 0`, and a float with no
   * fractional part equals the int of the same value, so all of these are the
   * int; every other value stands for itself.
   */
  function PyKey(v: Value): Value {
    match v
    case Bool(b) => Int(if b then 1 else 0)
    case Real(r) => if r == r.Floor as real then Int(r.Floor) else v
    case _ => v
  }

  /** Python's `a == b` on values. */
  predicate PyEq(a: Value, b: Value) {
    PyKey(a) == PyKey(b)
  }

  /** A representative stands for itself, so `PyKey` picks one value per class. */
  lemma PyKeyIdempotent(v: Value)
    ensures PyKey(PyKey(v)) == PyKey(v)
    ensures PyEq(v, PyKey(v))
  {
  }

  /** Python's equalities across the numeric types, and the ones that do not hold. */
  lemma PyEqExamples()
    ensures PyEq(Int(1), Bool(true)) && PyEq(Int(1), Real(1.0)) && PyEq(Bool(true), Real(1.0))
    ensures PyEq(Int(0), Bool(false)) && PyEq(Int(-2), Real(-2.0))
    ensures !PyEq(Int(1), Real(1.5)) && !PyEq(Int(1), Str("1")) && !PyEq(Null, Int(0)) && !PyEq(Null, Bool(false))
  {
  }
}
