// Machine integers, byte strings and the result types shared by every module.
module Prelude {

  const U32_LIMIT := 0x1_0000_0000
  const U64_LIMIT := 0x1_0000_0000_0000_0000
  const U128_LIMIT := 0x1_0000_0000_0000_0000_0000_0000_0000_0000

  type u8 = x: int | 0 <= x < 0x100
  type u16 = x: int | 0 <= x < 0x1_0000
  type u32 = x: int | 0 <= x < U32_LIMIT
  type u64 = x: int | 0 <= x < U64_LIMIT
  type u128 = x: int | 0 <= x < U128_LIMIT

  type bytes = seq<u8>
  type bytes32 = b: bytes | |b| == 32 witness seq(32, _ => 0)

  predicate IsZero(b: bytes) {
    forall i :: 0 <= i < |b| ==> b[i] == 0
  }

  // Two different byte strings with one digest.
  ghost predicate Collision<D>(hash: bytes -> D, x: bytes, y: bytes) {
    x != y && hash(x) == hash(y)
  }

  // A lowercase hexadecimal digit, by its character code.
  predicate IsLowerHexDigit(code: int) {
    0x30 <= code <= 0x39 || 0x61 <= code <= 0x66
  }

  datatype Option<+T> = None | Some(value: T)

  // Machine arithmetic that is refused where it would overflow.
  function CheckedAdd(limit: nat, a: nat, b: nat): Option<nat> {
    if a + b < limit then Some(a + b) else None
  }

  lemma ProductBound(a: nat, b: nat)
    ensures a * b >= 0
  {
  }

  function CheckedMul(limit: nat, a: nat, b: nat): Option<nat> {
    ProductBound(a, b);
    if a * b < limit then Some(a * b) else None
  }

  datatype Result<+T, +E> = Success(value: T) | Failure(error: E) {
    predicate IsFailure() { Failure? }

    function PropagateFailure<U>(): Result<U, E>
      requires Failure?
    {
      Failure(error)
    }

    function Extract(): T
      requires Success?
    {
      value
    }
  }

  datatype Outcome<+E> = Pass | Fail(error: E) {
    predicate IsFailure() { Fail? }

    function PropagateFailure<U>(): Result<U, E>
      requires Fail?
    {
      Failure(error)
    }
  }
}
