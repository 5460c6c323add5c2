/** Octets, little-endian words and the small datatypes the other modules share. */
module Bytes {
  newtype byte = x: int | 0 <= x < 256

  const U8_MAX := 0xFF
  const U32: nat := 0x1_0000_0000

  datatype Option<+T> = None | Some(value: T)

  function Fill(n: nat, b: byte): (s: seq<byte>)
  {
    seq(n, _ => b)
  }

  ghost predicate StrictlyIncreasing(s: seq<nat>) {
    forall i, j :: 0 <= i < j < |s| ==> s[i] < s[j]
  }
}
