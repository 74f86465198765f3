/** Byte buffers filled by offset. */
module Buffers {
  import opened Bytes

  /** s with src written over it from off on. */
  function Overwrite(s: bytes, off: nat, src: bytes): (r: bytes)
    requires off + |src| <= |s|
    ensures |r| == |s|
  {
    s[..off] + src + s[off + |src|..]
  }

  lemma OverwriteNext(front: bytes, rest: bytes, src: bytes)
    requires |src| <= |rest|
    ensures Overwrite(front + rest, |front|, src) == front + src + rest[|src|..]
  {
  }

  /** Go's copy into a buffer. */
  method Copy(buf: array<byte>, off: nat, src: bytes)
    requires off + |src| <= buf.Length
    modifies buf
    ensures buf[..] == Overwrite(old(buf[..]), off, src)
  {
    ghost var was := buf[..];
    for i := 0 to |src|
      invariant buf[..] == Overwrite(was, off, src[..i])
    {
      buf[off + i] := src[i];
      assert src[..i + 1] == src[..i] + [src[i]];
    }
    assert src[..|src|] == src;
  }

  function Zeros(n: nat): (s: bytes)
    ensures |s| == n
  {
    seq(n, _ => 0)
  }
}
