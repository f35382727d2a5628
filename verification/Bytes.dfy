/** Machine numbers shared by the models. */
module Bytes {
  const U32_MAX: nat := 0xffff_ffff

  const U64_MAX: nat := 0xffff_ffff_ffff_ffff

  newtype Byte = b: int | 0 <= b < 256

  function Zeros(n: nat): (r: seq<Byte>)
    ensures |r| == n && forall i :: 0 <= i < n ==> r[i] == 0
  {
    if n == 0 then [] else Zeros(n - 1) + [0]
  }
}
