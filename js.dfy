/** The slice of JavaScript's value semantics the client-side code depends on:
    dynamically typed values, truthiness, string conversion, and the integer
    behaviour of `Math.floor(a / b)` and of the truncating `%` operator. */
module Js {
  import Text

  /** A JavaScript value as the forms and the store see it. Numbers are
      restricted to integers. */
  datatype Value = Undefined | Null | Bool(b: bool) | Num(n: int) | Str(s: string)

  /** `!!v`: false exactly for `undefined`, `null`, `false`, `0` and `''`. */
  predicate Truthy(v: Value) {
    match v
    case Undefined => false
    case Null => false
    case Bool(b) => b
    case Num(n) => n != 0
    case Str(s) => s != ""
  }

  /** `String(v)` / `v.toString()` for the values it is applied to. */
  function ToStr(v: Value): string {
    match v
    case Undefined => "undefined"
    case Null => "null"
    case Bool(b) => if b then "true" else "false"
    case Num(n) => Text.IntToString(n)
    case Str(s) => s
  }

  /** The UTF-16 code units of one character: two for a character above
      U+FFFF, which JavaScript stores as a surrogate pair. */
  function CodeUnits(c: char): nat {
    if c as int > 0xFFFF then 2 else 1
  }

  /** `s.length`: the number of UTF-16 code units, so between the number of
      characters and twice that, and equal to it on the Basic Multilingual
      Plane. */
  function Length(s: string): (n: nat)
    ensures |s| <= n <= 2 * |s|
    ensures (forall i :: 0 <= i < |s| ==> s[i] as int <= 0xFFFF) ==> n == |s|
  {
    if s == [] then 0 else Length(s[..|s| - 1]) + CodeUnits(s[|s| - 1])
  }

  /** The length of a concatenation is the sum of the lengths. */
  lemma {:induction false} LengthAppend(a: string, b: string)
    ensures Length(a + b) == Length(a) + Length(b)
    decreases |b|
  {
    if b != [] {
      assert (a + b)[..|a + b| - 1] == a + b[..|b| - 1];
      assert (a + b)[|a + b| - 1] == b[|b| - 1];
      LengthAppend(a, b[..|b| - 1]);
    } else {
      assert a + b == a;
    }
  }

  /** `Math.floor(a / b)` for a positive integer divisor. */
  function FloorDiv(a: int, b: int): (q: int)
    requires b > 0
    ensures q * b <= a < (q + 1) * b
  {
    a / b
  }

  /** The quotient of `a / b` truncated toward zero. */
  function TruncDiv(a: int, b: int): int
    requires b > 0
  {
    if a >= 0 then a / b else -((-a) / b)
  }

  /** `a % b` for a positive divisor: the remainder of the truncated
      division, which takes the sign of `a`. */
  function Rem(a: int, b: int): (r: int)
    requires b > 0
    ensures -b < r < b
    ensures a >= 0 ==> 0 <= r
    ensures a <= 0 ==> r <= 0
    ensures a == TruncDiv(a, b) * b + r
  {
    if a >= 0 then a % b else -((-a) % b)
  }

  /** For non-negative operands the two agree with Euclidean division. */
  lemma FloorRemNonNegative(a: int, b: int)
    requires a >= 0 && b > 0
    ensures 0 <= Rem(a, b) < b
    ensures FloorDiv(a, b) * b + Rem(a, b) == a
  {
  }
}
