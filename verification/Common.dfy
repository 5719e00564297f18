/** An optional value: Python's `None` or a present value. */
module Options {
  datatype Option<+T> = None | Some(value: T)
}

/** Exact arithmetic stand-ins for the float helpers the source uses. */
module Numeric {

  function Abs(x: real): (r: real)
    ensures r >= 0.0 && (r == x || r == -x)
  {
    if x < 0.0 then -x else x
  }

  function Min(x: real, y: real): real { if x < y then x else y }

  function Max(x: real, y: real): real { if x > y then x else y }

  /** Nearest integer, ties to the even neighbour: Python's `round` on an exact value. */
  function RoundHalfEven(x: real): int
  {
    var f := x.Floor;
    var rest := x - f as real;
    if rest < 0.5 then f
    else if rest > 0.5 then f + 1
    else if f % 2 == 0 then f else f + 1
  }

  lemma RoundIsNearest(x: real)
    ensures -0.5 <= RoundHalfEven(x) as real - x <= 0.5
  {
  }

  lemma RoundMonotone(x: real, y: real)
    requires x <= y
    ensures RoundHalfEven(x) <= RoundHalfEven(y)
  {
    assert x.Floor <= y.Floor;
  }

  lemma RoundOfInteger(n: int)
    ensures RoundHalfEven(n as real) == n
  {
    assert (n as real).Floor == n;
  }

  /** `round(x, 2)` */
  function Round2(x: real): real { RoundHalfEven(x * 100.0) as real / 100.0 }

  lemma Round2Monotone(x: real, y: real)
    requires x <= y
    ensures Round2(x) <= Round2(y)
  {
    RoundMonotone(x * 100.0, y * 100.0);
  }

  /** Dividing by a positive count keeps the order. */
  lemma DivMonotone(a: int, b: int, n: int)
    requires a <= b && n > 0
    ensures a as real / n as real <= b as real / n as real
  {
  }

  /** `round(x, 4)` */
  function Round4(x: real): real { RoundHalfEven(x * 10000.0) as real / 10000.0 }

  lemma Round4Monotone(x: real, y: real)
    requires x <= y
    ensures Round4(x) <= Round4(y)
  {
    RoundMonotone(x * 10000.0, y * 10000.0);
  }
}
