/**
What the other modules share: optional values, bytes, and the ranges of machine integers.
*/
module Common {

  datatype Option<T> = None | Some(value: T)

  type Byte = n: nat | n < 256

  type Bytes = seq<Byte>

  // Unsigned integers of 32 and 64 bits wrap around at these.
  const Wrap32: nat := 0x1_0000_0000
  const Wrap64: nat := 0x1_0000_0000_0000_0000

  function Zeros(n: nat): (z: Bytes)
    ensures |z| == n && forall i :: 0 <= i < n ==> z[i] == 0
  {
    seq(n, i => 0)
  }
}
