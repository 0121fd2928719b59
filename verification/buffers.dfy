/** Writing into a byte buffer in place. */
module Buffers {
  import opened Bytes

  /** `buf` with `s` written at `off`. */
  ghost function Splice(buf: seq<byte>, off: int, s: seq<byte>): (r: seq<byte>)
    requires 0 <= off && off + |s| <= |buf|
    ensures |r| == |buf|
  {
    buf[..off] + s + buf[off + |s|..]
  }

  /** Two adjacent writes are one. */
  lemma SpliceTwice(buf: seq<byte>, off: int, s: seq<byte>, t: seq<byte>)
    requires 0 <= off && off + |s| + |t| <= |buf|
    ensures Splice(Splice(buf, off, s), off + |s|, t) == Splice(buf, off, s + t)
  {
  }

  /** Writing the next stretch of `s` after the first `i` bytes of it. */
  lemma SpliceExtends(buf: seq<byte>, off: int, s: seq<byte>, i: int, j: int)
    requires 0 <= i <= j <= |s| && 0 <= off && off + |s| <= |buf|
    ensures Splice(Splice(buf, off, s[..i]), off + i, s[i..j]) == Splice(buf, off, s[..j])
  {
    SpliceTwice(buf, off, s[..i], s[i..j]);
    assert s[..i] + s[i..j] == s[..j];
  }

  lemma SpliceOneMore(buf: seq<byte>, off: int, s: seq<byte>, i: int)
    requires 0 <= i < |s| && 0 <= off && off + |s| <= |buf|
    ensures Splice(buf, off, s[..i])[off + i := s[i]] == Splice(buf, off, s[..i + 1])
  {
    var done := Splice(buf, off, s[..i]);
    assert forall k :: 0 <= k < |buf| && k != off + i ==> done[k] == Splice(buf, off, s[..i + 1])[k];
  }

  lemma SliceOfSlice(s: seq<byte>, from: int, to: int, i: int, j: int)
    requires 0 <= from <= to <= |s| && 0 <= i <= j <= to - from
    ensures s[from..to][i..j] == s[from + i..from + j]
  {
    assert forall k :: 0 <= k < j - i ==> s[from..to][i..j][k] == s[from + i + k];
  }

  /** Writes `s` at `off`, as filling a packed header struct does. */
  method Store(dst: array<byte>, off: int, s: seq<byte>)
    requires 0 <= off && off + |s| <= dst.Length
    modifies dst
    ensures dst[..] == Splice(old(dst[..]), off, s)
  {
    ghost var was := dst[..];
    for i := 0 to |s|
      invariant dst[..] == Splice(was, off, s[..i])
    {
      SpliceOneMore(was, off, s, i);
      dst[off + i] := s[i];
    }
    assert s[..|s|] == s;
  }

  /** `memcpy` between two buffers. */
  method Copy(dst: array<byte>, off: int, src: array<byte>, from: int, n: int)
    requires dst != src && 0 <= n && 0 <= off && off + n <= dst.Length && 0 <= from && from + n <= src.Length
    modifies dst
    ensures dst[..] == Splice(old(dst[..]), off, old(src[..])[from..from + n]) && src[..] == old(src[..])
  {
    ghost var was, s := dst[..], src[from..from + n];
    for i := 0 to n
      invariant src[..] == old(src[..])
      invariant dst[..] == Splice(was, off, s[..i])
    {
      SpliceOneMore(was, off, s, i);
      dst[off + i] := src[from + i];
    }
    assert s[..n] == s;
  }
}
