/** The values that arrive from the Salt API as decoded JSON, with the parts of
    Python's semantics the plugins rely on: truthiness, `isinstance(v, (str, int))`,
    hashability, comparison with `0` and the status `sys.exit(v)` gives. */
module PyValue {

  /** One byte of a file's contents. */
  type byte = x: int | 0 <= x < 256

  datatype Value =
    | Null
    | Bool(b: bool)
    | Int(i: int)
    | Float(x: real)
    | Str(s: string)
    | List(items: seq<Value>)
    | Dict(entries: map<string, Value>)

  /** Python's `bool(v)`. */
  predicate Truthy(v: Value) {
    match v
    case Null => false
    case Bool(b) => b
    case Int(i) => i != 0
    case Float(x) => x != 0.0
    case Str(s) => s != []
    case List(items) => items != []
    case Dict(entries) => entries != map[]
  }

  /** `isinstance(v, (str, int))`; `bool` is a subclass of `int` in Python. */
  predicate IsStrOrInt(v: Value) {
    v.Str? || v.Int? || v.Bool?
  }

  /** Whether `v` can be looked up as a dictionary key (lists and dicts cannot). */
  predicate Hashable(v: Value) {
    !v.List? && !v.Dict?
  }

  /** Python's `v != 0`: numbers compare by value, every other value differs from 0. */
  predicate IsNonZero(v: Value) {
    match v
    case Bool(b) => b
    case Int(i) => i != 0
    case Float(x) => x != 0.0
    case _ => true
  }

  /** The process status of `sys.exit(v)`: `None` is success, an integer
      keeps only its low byte (the operating system's exit status is 8 bits,
      so `sys.exit(256)` succeeds and `sys.exit(-1)` gives 255), anything
      else is printed and gives 1. */
  function ExitStatus(v: Value): (status: int)
    ensures 0 <= status < 256
    ensures v.Int? ==> status == v.i % 256
    ensures v.Int? && 0 <= v.i < 256 ==> status == v.i
    ensures v.Null? ==> status == 0
    ensures !v.Int? && !v.Null? && !v.Bool? ==> status == 1
  {
    match v
    case Null => 0
    case Bool(b) => if b then 1 else 0
    case Int(i) => i % 256
    case _ => 1
  }

  /** A code that is not zero exits with success only when it is `None`, which
      `sys.exit` treats as success, or an integer whose low byte is zero. */
  lemma NonZeroExit(v: Value)
    requires IsNonZero(v)
    ensures ExitStatus(v) == 0 <==> v.Null? || (v.Int? && v.i % 256 == 0)
    ensures v == Int(256) ==> ExitStatus(v) == 0
  {
  }
}
