/** Rounding to the nearest integer, ties to even: `std::lrint` in C++ and `round` in Python. */
module Rounding {

  function RoundHalfEven(r: real): (n: int)
    ensures -0.5 <= r - n as real <= 0.5
    ensures r - n as real == 0.5 || r - n as real == -0.5 ==> n % 2 == 0
  {
    var f := r.Floor;
    var d := r - f as real;
    if d < 0.5 then f
    else if d > 0.5 then f + 1
    else if f % 2 == 0 then f
    else f + 1
  }

  lemma {:induction false} RoundMonotone(a: real, b: real)
    requires a <= b
    ensures RoundHalfEven(a) <= RoundHalfEven(b)
  {
    var m, n := RoundHalfEven(a), RoundHalfEven(b);
    assert m as real - 0.5 <= a <= b <= n as real + 0.5;
    assert m <= n + 1;
  }
}
