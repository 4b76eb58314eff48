/** The conversions JavaScript applies when a non-negative integer is stored
    into an `Int32Array` or a `Uint32Array` element: reduction modulo 2^32,
    read back as signed or unsigned. */
module TypedArrays {

  const TwoTo32: nat := 0x1_0000_0000
  const TwoTo31: nat := 0x8000_0000

  /** Value read back from a `Uint32Array` element after storing `x`. */
  function ToUint32(x: nat): (r: nat)
    ensures r < TwoTo32
    ensures (x - r) % TwoTo32 == 0
    ensures x < TwoTo32 ==> r == x
  {
    x % TwoTo32
  }

  /** Value read back from an `Int32Array` element after storing `x`. */
  function ToInt32(x: nat): (r: int)
    ensures -(TwoTo31 as int) <= r < TwoTo31
    ensures (x - r) % TwoTo32 == 0
    ensures x < TwoTo31 ==> r == x
  {
    var m := x % TwoTo32;
    if m >= TwoTo31 then m - TwoTo32 else m
  }
}
