/** Machine integers, and the types shared by the execution graph and the residency manager. */
module ModelTypes {

  datatype Option<T> = None | Some(value: T)

  const TWO_32: nat := 0x1_0000_0000

  type U32 = n: nat | n < TWO_32

  const TWO_64: nat := 0x1_0000_0000_0000_0000

  type U64 = n: nat | n < TWO_64

  /** 64-bit unsigned addition, which wraps. */
  function Add64(a: nat, b: nat): U64 {
    (a + b) % TWO_64
  }

  lemma Add64Exact(a: nat, b: nat)
    ensures a + b < TWO_64 ==> Add64(a, b) == a + b
  {
  }

  type Byte = bv8

  /** A slice of the model file. */
  datatype ModelRegion = ModelRegion(id: U64, offset: U64, size: U64)

  datatype ResidencyTarget = TargetRam | TargetAccelerator
}
