/** Small shared vocabulary: an optional value, the byte type of the
    caller buffers, and the slice copy the Rust code uses to fill them. */
module Base {

  datatype Option<T> = None | Some(value: T)

  /** An unsigned 8-bit value (`u8`). */
  newtype byte = x: int | 0 <= x < 256

  /** `dst[at..at + |src|].copy_from_slice(src)`: overwrites exactly the
      cells `at .. at + |src| - 1` of `dst` with `src` and nothing else. */
  method CopyFromSlice(dst: array<byte>, at: nat, src: seq<byte>)
    requires at + |src| <= dst.Length
    modifies dst
    ensures dst[..] == old(dst[..at]) + src + old(dst[at + |src|..])
  {
    forall k | 0 <= k < |src| {
      dst[at + k] := src[k];
    }
    assert dst[..] == old(dst[..at]) + src + old(dst[at + |src|..]);
  }
}
