/** Powers. */
module Arithmetic {

  function Pow(base: nat, n: nat): (r: nat)
    ensures base > 0 ==> r > 0
  {
    if n == 0 then 1 else base * Pow(base, n - 1)
  }
}
