/**
 * The few PHP value semantics the plugin's server side depends on: values and ordered
 * arrays, `isset`, `empty` and truthiness, the `(float)` and `(int)` casts, strict
 * `in_array`, `(array)` and `round`. WordPress and PHP functions whose definitions are not
 * part of this model are collected in `Host` and passed in as parameters.
 */
module Php {

  /** An array key: PHP arrays are ordered maps from integer or string keys. */
  datatype Key = IntKey(i: int) | StrKey(s: string)

  /** A PHP value; a float is an exact real. */
  datatype Value =
    | Null
    | Bool(b: bool)
    | Int(i: int)
    | Float(f: real)
    | Str(s: string)
    | Arr(entries: seq<(Key, Value)>)

  /**
   * Functions of WordPress and of PHP's string handling whose definitions are not part of
   * this model: `sanitize_key`, `sanitize_text_field`, `sanitize_hex_color` (a string, or
   * null when rejected), the numeric value of a string under `(float)`, and `is_numeric` on
   * a string.
   */
  datatype Host = Host(
    sanitizeKey: Value -> string,
    sanitizeTextField: Value -> string,
    sanitizeHexColor: Value -> Value,
    stringToFloat: string -> real,
    numericString: string -> bool)

  /** Conversion to boolean: `null`, `false`, `0`, `0.0`, `""`, `"0"` and `[]` are false. */
  predicate Truthy(v: Value) {
    match v
    case Null => false
    case Bool(b) => b
    case Int(i) => i != 0
    case Float(f) => f != 0.0
    case Str(s) => s != "" && s != "0"
    case Arr(es) => es != []
  }

  /** `$a[$k]` on an array with string keys; a missing key reads as `null`. */
  function Get(a: map<string, Value>, k: string): Value {
    if k in a then a[k] else Null
  }

  /** `isset($a[$k])`: the key is present and its value is not `null`. */
  predicate IsSet(a: map<string, Value>, k: string) {
    k in a && a[k] != Null
  }

  /** `empty($a[$k])`: the key is missing or its value converts to false. */
  predicate Empty(a: map<string, Value>, k: string) {
    !Truthy(Get(a, k))
  }

  /** `(float) $v`. */
  function ToFloat(host: Host, v: Value): real {
    match v
    case Null => 0.0
    case Bool(b) => if b then 1.0 else 0.0
    case Int(i) => i as real
    case Float(f) => f
    case Str(s) => host.stringToFloat(s)
    case Arr(es) => if es == [] then 0.0 else 1.0
  }

  /** Truncation toward zero, as PHP's `(int)` does to a float. */
  function Trunc(x: real): (r: int)
    ensures x >= 0.0 ==> r as real <= x < r as real + 1.0
    ensures x < 0.0 ==> r as real - 1.0 < x <= r as real
  {
    if x >= 0.0 then x.Floor else -((-x).Floor)
  }

  /** `(int) $v`; a numeric string converts as its float value does. */
  function ToInt(host: Host, v: Value): int {
    match v
    case Null => 0
    case Bool(b) => if b then 1 else 0
    case Int(i) => i
    case Float(f) => Trunc(f)
    case Str(s) => Trunc(host.stringToFloat(s))
    case Arr(es) => if es == [] then 0 else 1
  }

  /** `is_numeric($v)`. */
  predicate IsNumeric(host: Host, v: Value) {
    match v
    case Int(_) => true
    case Float(_) => true
    case Str(s) => host.numericString(s)
    case _ => false
  }

  /** `in_array($x, $a, true)`: some element of `a` is identical to `x`. */
  predicate InArrayStrict(x: Value, a: seq<(Key, Value)>) {
    exists i :: 0 <= i < |a| && a[i].1 == x
  }

  /** `(array) $v` for a value that is set: an array stays as it is, a scalar becomes `[0 => $v]`. */
  function ToArray(v: Value): seq<(Key, Value)> {
    match v
    case Null => []
    case Arr(es) => es
    case _ => [(IntKey(0), v)]
  }

  /**
   * `round($x)` for `$x >= 0`: halves round away from zero, that is, up. The result is the
   * nearest integer, and of two equally near ones the larger.
   */
  function RoundHalfUp(x: real): (r: int)
    requires x >= 0.0
    ensures r >= 0
    ensures r as real - 0.5 <= x < r as real + 0.5
  {
    (x + 0.5).Floor
  }
}
