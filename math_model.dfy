/** The two library functions the analysis calls, `Math.sqrt` and `Math.log`.
    They are supplied by the caller as a value of type `Math`; `Lawful` states
    the only facts the model relies on. */
module MathModel {

  datatype Math = Math(sqrt: real -> real, log: real -> real)

  /** `sqrt` is the non-negative square root on non-negative arguments (zero
      at zero, positive on positive arguments), and `log` is strictly
      increasing on positive arguments. */
  ghost predicate Lawful(math: Math) {
    (forall x: real :: 0.0 <= x ==> 0.0 <= math.sqrt(x) && Square(math.sqrt(x)) == x) &&
    math.sqrt(0.0) == 0.0 &&
    (forall x: real :: 0.0 < x ==> 0.0 < math.sqrt(x)) &&
    (forall x: real, y: real :: 0.0 < x < y ==> math.log(x) < math.log(y))
  }

  /** On a lawful square root, `sqrt(x)` is zero exactly when `x` is. */
  lemma SqrtZero(math: Math, x: real)
    requires Lawful(math) && 0.0 <= x
    ensures math.sqrt(x) == 0.0 <==> x == 0.0
  {
  }

  /** `Math.abs`. */
  function Abs(x: real): (r: real)
    ensures 0.0 <= r && (r == x || r == -x)
  {
    if x < 0.0 then -x else x
  }

  function Square(x: real): real {
    x * x
  }

  lemma PositiveTimesPositive(a: real, b: real)
    requires 0.0 < a && 0.0 < b
    ensures 0.0 < a * b
  {
  }

  lemma NonNegativeProduct(a: real, b: real)
    requires 0.0 <= a && 0.0 <= b
    ensures 0.0 <= a * b
  {
    if 0.0 < a && 0.0 < b {
      PositiveTimesPositive(a, b);
    }
  }

  lemma PositiveSquare(x: real)
    requires 0.0 < x
    ensures 0.0 < Square(x)
  {
    calc {
      0.0;
    < { PositiveTimesPositive(x, x); }
      x * x;
    ==
      Square(x);
    }
  }

  /** The square of a non-zero number is positive. */
  lemma SquarePositive(x: real)
    requires x != 0.0
    ensures 0.0 < Square(x)
  {
    if 0.0 < x {
      PositiveSquare(x);
    } else {
      PositiveSquare(-x);
      assert Square(-x) == Square(x);
    }
  }

  lemma SquareNonNegative(x: real)
    ensures 0.0 <= Square(x)
  {
    if x != 0.0 {
      SquarePositive(x);
    }
  }

  lemma PositiveQuotient(a: real, b: real)
    requires 0.0 < a && 0.0 < b
    ensures 0.0 < a / b
  {
    var q := a / b;
    assert q * b == a;
    if q <= 0.0 {
      NonNegativeProduct(-q, b);
    }
  }

  lemma MulMonotone(a: int, b: int, p: int)
    requires 0 <= a <= b && 0 <= p
    ensures 0 <= a * p <= b * p
  {
  }

  lemma QuotientOf(x: real, y: real, q: real)
    requires y != 0.0 && x == q * y
    ensures x / y == q
  {
  }
}
