/**
 * Integer and real helpers that reproduce the arithmetic of the C++/CLI
 * reader: 64-bit sentinels, C++ integer division (which truncates toward
 * zero, unlike Dafny's Euclidean `/`), the double-to-integer cast, and the
 * banker's rounding of .NET `Math::Round`.
 */
module Numerics {

  /** libav's AV_NOPTS_VALUE is INT64_MIN. */
  const Int64Min: int := -0x8000_0000_0000_0000
  /** .NET Int64::MaxValue. */
  const Int64Max: int := 0x7FFF_FFFF_FFFF_FFFF

  /**
   * What the x86 conversion of an infinite or NaN double gives: the
   * "integer indefinite" value, the most negative integer of the target.
   */
  const NonFiniteToInt64: int := Int64Min
  const NonFiniteToInt32: int := -0x8000_0000

  datatype Option<+T> = None | Some(value: T)

  function Abs(x: int): int { if x < 0 then -x else x }
  function Max(a: int, b: int): int { if a >= b then a else b }
  function Min(a: int, b: int): int { if a <= b then a else b }
  function AbsReal(x: real): real { if x < 0.0 then -x else x }

  /** C++ `a / b` on integers: the quotient truncated toward zero. */
  function TruncDiv(a: int, b: int): (q: int)
    requires b != 0
    ensures Abs(a - b * q) < Abs(b)
    ensures a - b * q == 0 || (a - b * q > 0 <==> a > 0)
    ensures q == 0 || (q > 0 <==> (a > 0) == (b > 0))
  {
    var m := Abs(a) / Abs(b);
    var q := if (a >= 0) == (b > 0) then m else -m;
    TruncDivCorrect(a, b, m, q);
    q
  }

  lemma TruncDivCorrect(a: int, b: int, m: int, q: int)
    requires b != 0 && m == Abs(a) / Abs(b)
    requires q == if (a >= 0) == (b > 0) then m else -m
    ensures Abs(a - b * q) < Abs(b)
    ensures a - b * q == 0 || (a - b * q > 0 <==> a > 0)
    ensures q == 0 || (q > 0 <==> (a > 0) == (b > 0))
  {
    var x, y := Abs(a), Abs(b);
    var p := y * m;
    EuclidFacts(x, y, m);
    assert 0 <= x - p < y && m >= 0;
    ProductSign(b, q, y, m, p);
    assert b * q == p || b * q == -p;
  }

  lemma EuclidFacts(x: int, y: int, m: int)
    requires x >= 0 && y > 0 && m == x / y
    ensures 0 <= x - y * m < y && m >= 0
    ensures m == 0 ==> x < y
  {
  }

  lemma ProductSign(b: int, q: int, y: int, m: int, p: int)
    requires y == Abs(b) && p == y * m && (q == m || q == -m)
    ensures b * q == (if (b > 0) == (q == m) then p else -p)
  {
  }

  /** On non-negative operands C++ and Dafny division agree. */
  lemma TruncDivNonNegative(a: int, b: int)
    requires a >= 0 && b > 0
    ensures TruncDiv(a, b) == a / b
  {
  }

  /** The C++ cast of a double to an integer type: truncation toward zero. */
  function TruncReal(x: real): (r: int)
    ensures AbsReal(x - r as real) < 1.0
    ensures AbsReal(r as real) <= AbsReal(x)
    ensures r == 0 || (r > 0 <==> x > 0.0)
  {
    if x >= 0.0 then x.Floor else -((-x).Floor)
  }

  /**
   * .NET `Math::Round(double)`: the nearest integer, and on a tie the even
   * one (MidpointRounding.ToEven).
   */
  function RoundHalfEven(x: real): (r: int)
    ensures AbsReal(x - r as real) <= 0.5
    ensures AbsReal(x - r as real) == 0.5 ==> r % 2 == 0
  {
    var f := x.Floor;
    var d := x - f as real;
    if d < 0.5 then f
    else if d > 0.5 then f + 1
    else if f % 2 == 0 then f
    else f + 1
  }

  /**
   * The C++ cast of a finite double to a 32-bit `int` on x86: truncation
   * toward zero when the result fits, the indefinite integer when it does not.
   */
  function DoubleToInt32(x: real): (r: int)
    ensures -0x8000_0000 <= r < 0x8000_0000
    ensures -0x8000_0001 as real < x < 0x8000_0000 as real ==>
              && AbsReal(x - r as real) < 1.0 && AbsReal(r as real) <= AbsReal(x) && (r == 0 || (r > 0 <==> x > 0.0))
    ensures !(-0x8000_0001 as real < x < 0x8000_0000 as real) ==> r == NonFiniteToInt32
  {
    var t := TruncReal(x);
    if -0x8000_0000 <= t < 0x8000_0000 then t else NonFiniteToInt32
  }

  /** The C++ conversion of a 64-bit value to a 32-bit `int`: wrap-around. */
  function ToInt32(x: int): (r: int)
    ensures -0x8000_0000 <= r < 0x8000_0000
    ensures -0x8000_0000 <= x < 0x8000_0000 ==> r == x
    ensures (r - x) % 0x1_0000_0000 == 0
  {
    (x + 0x8000_0000) % 0x1_0000_0000 - 0x8000_0000
  }
}
