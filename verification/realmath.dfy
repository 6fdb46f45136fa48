/** Arithmetic on reals shared by the input and motion models. */
module RealMath {

  function Abs(x: real): (r: real)
    ensures r >= 0.0
    ensures r == x || r == -x
  {
    if x < 0.0 then -x else x
  }
}
