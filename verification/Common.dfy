/**
  Types and functions that several modules share.
*/
module Common {
  datatype Option<+T> = None | Some(value: T)

  type byte = b: int | 0 <= b < 0x100
  type word = w: int | 0 <= w < 0x1_0000_0000

  function Pow2(n: nat): (p: nat)
    ensures p >= 1
  {
    if n == 0 then 1 else 2 * Pow2(n - 1)
  }
}
