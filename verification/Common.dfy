/** Shared vocabulary: optional values, error returns and Go's 64-bit unsigned integers. */
module Common {

  datatype Option<+T> = None | Some(value: T)

  datatype Result<+T, +E> = Ok(value: T) | Err(error: E)

  /** 2^64, the modulus of Go's uint64. */
  const TWO_64: int := 0x1_0000_0000_0000_0000

  /** 2^63 - 1, the largest value Redis' DECR accepts. */
  const MAX_INT64: int := 0x7FFF_FFFF_FFFF_FFFF

  type uint64 = n: int | 0 <= n < TWO_64

  /** `n + 1` and `n - 1` on a Go uint64 wrap around. */
  function Inc(n: uint64): uint64 {
    (n + 1) % TWO_64
  }

  function Dec(n: uint64): uint64 {
    (n - 1) % TWO_64
  }

  /** How an acquired nonce slot is resolved. */
  datatype How = Commit | Reuse | Reclaim

  /** The nonces from, from + 1, ..., to - 1, in order. */
  function Range(from: nat, to: nat): (r: seq<nat>)
    requires from <= to
    ensures |r| == to - from
    ensures forall i :: 0 <= i < |r| ==> r[i] == from + i
  {
    seq(to - from, i requires 0 <= i => from + i)
  }
}
