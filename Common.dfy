/** Shared result type and fixed-width integer types used by every layer. */
module Common {

  /** `Err` is the source's `Err(())`; `Panic` is a `panic!`, a failed
      `unwrap`/`expect`, an out-of-range slice or an arithmetic overflow
      that aborts the calling thread. */
  datatype Result<T> = Ok(value: T) | Err | Panic(reason: string)

  datatype Option<T> = None | Some(value: T)

  /** Which reading of a test that the code evidently gets wrong a member
      follows: the code as written, or the evidently intended one. */
  datatype Reading = AsWritten | Corrected

  type byte = x: int | 0 <= x < 0x100
  type u16 = x: int | 0 <= x < 0x1_0000
  type u32 = x: int | 0 <= x < 0x1_0000_0000

  const U32_MAX: int := 0xffff_ffff

  /** A sequence of `n` zero bytes. */
  function Zeros(n: nat): (r: seq<byte>)
    ensures |r| == n
    ensures forall i :: 0 <= i < n ==> r[i] == 0
  {
    seq(n, _ => 0)
  }
}
