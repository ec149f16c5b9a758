/**
 * The Python semantics the back end relies on: the values a JSON request body
 * decodes to, truthiness, `isinstance` tests on numbers, and list slicing with
 * Python's rules for negative and out-of-range bounds.
 */
module Python {

  /** A value produced by `request.get_json()`. */
  datatype Value =
    | Null
    | Bool(b: bool)
    | Int(i: int)
    | Float(r: real)
    | Str(s: string)
    | List(items: seq<Value>)
    | Dict(entries: map<string, Value>)

  /** A decoded JSON object: the request bodies the handlers read with `data.get(...)`. */
  type Body = map<string, Value>

  /** `bool(v)`: None, False, zero, and empty strings and containers are falsy. */
  predicate Truthy(v: Value) {
    match v
    case Null => false
    case Bool(b) => b
    case Int(i) => i != 0
    case Float(r) => r != 0.0
    case Str(s) => s != ""
    case List(xs) => xs != []
    case Dict(m) => m != map[]
  }

  /** `data.get(key)`: None when the key is absent. */
  function Get(data: Body, key: string): (v: Value)
    ensures key !in data ==> v == Null
    ensures key in data ==> v == data[key]
  {
    if key in data then data[key] else Null
  }

  /** `data.get(key, default)`. */
  function GetOr(data: Body, key: string, default: Value): (v: Value)
    ensures key !in data ==> v == default
    ensures key in data ==> v == data[key]
  {
    if key in data then data[key] else default
  }

  /** `isinstance(v, int)`: `bool` is a subclass of `int` in Python. */
  predicate IsInt(v: Value) {
    v.Int? || v.Bool?
  }

  /** The integer an `int` instance stands for (`True == 1`, `False == 0`). */
  function IntOf(v: Value): int
    requires IsInt(v)
  {
    match v
    case Int(i) => i
    case Bool(b) => if b then 1 else 0
  }

  /** `isinstance(v, (int, float))`. */
  predicate IsNumber(v: Value) {
    IsInt(v) || v.Float?
  }

  /** The numeric value of an `int` or `float` instance. */
  function NumberOf(v: Value): real
    requires IsNumber(v)
  {
    if v.Float? then v.r else IntOf(v) as real
  }

  /** `int(r)` for a float: truncation toward zero. */
  function Trunc(r: real): (n: int)
    ensures r >= 0.0 ==> n as real <= r < n as real + 1.0
    ensures r < 0.0 ==> n as real - 1.0 < r <= n as real
  {
    if r >= 0.0 then r.Floor else -((-r).Floor)
  }

  /** How Python normalises one bound of `s[i:j]` for a list of length `n`. */
  function SliceBound(i: int, n: nat): (b: nat)
    ensures b <= n
    ensures 0 <= i <= n ==> b == i
    ensures i > n ==> b == n
    ensures -(n as int) <= i < 0 ==> b == i + n
    ensures i < -(n as int) ==> b == 0
  {
    if i < 0 then (if i + n < 0 then 0 else i + n)
    else if i > n then n
    else i
  }

  /** `s[i:j]` with Python's semantics for any integer bounds. */
  function Slice<T>(s: seq<T>, i: int, j: int): (r: seq<T>)
    ensures |r| <= |s|
    ensures SliceBound(i, |s|) <= SliceBound(j, |s|) ==> r == s[SliceBound(i, |s|)..SliceBound(j, |s|)]
    ensures SliceBound(i, |s|) > SliceBound(j, |s|) ==> r == []
  {
    var a, b := SliceBound(i, |s|), SliceBound(j, |s|);
    if a <= b then s[a..b] else []
  }

  /** With non-negative bounds, a Python slice is the ordinary clamped slice. */
  lemma {:induction false} SliceNonNegative<T>(s: seq<T>, i: int, j: int)
    requires 0 <= i <= j
    ensures Slice(s, i, j) == s[Min(i, |s|)..Min(j, |s|)]
  {
  }

  function Min(a: int, b: int): int {
    if a <= b then a else b
  }

  function Max(a: int, b: int): int {
    if a >= b then a else b
  }
}
