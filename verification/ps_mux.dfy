/** `ps_process` for video frames: the program stream is written into a buffer through an advancing
    offset, one PES packet at a time. */
module PsMux {
  import opened Bytes
  import opened PsClock
  import opened PsStream
  import opened Buffers

  method PackHeaderMake(t: bv64, dst: array<byte>, off: int)
    requires 0 <= off && off + PACK_SIZE <= dst.Length
    modifies dst
    ensures dst[..] == Splice(old(dst[..]), off, PackHeader(ScrBytes(t)))
  {
    var a := MakeScr1(t);
    var b := MakeScr2(t);
    var c := MakeScr3(t);
    var scr := [HighByte(a), LowByte(a), HighByte(b), LowByte(b), HighByte(c), LowByte(c)];
    Store(dst, off, [0, 0, 1, 0xBA] + scr + [0x01, 0x99, 0x9F, 0xF8]);
  }

  /** `ps_pes_video_init` and `ps_pesheader_make`: `n` bytes of the frame remain. */
  method PesHeaderMake(n: int, t: bv64, dst: array<byte>, off: int)
    requires 0 <= off && off + PES_SIZE <= dst.Length
    modifies dst
    ensures dst[..] == Splice(old(dst[..]), off, PesHeader(n, ClockBytes(t)))
  {
    var low := t & 0xFFFF_FFFF;
    var ptsp := MakeTimePrefix(PTS_DTS_FLAG, low);
    var pts := MakeTimeRest(low);
    var dtsp := MakeTimePrefix(1, low);
    var dts := MakeTimeRest(low);
    var ppl := 0xFFFF;
    if n <= MAX_PES { ppl := n + PES_PPL_LENGTH; }
    var clock := [FromWord(ptsp)] + Be32(pts) + [FromWord(dtsp)] + Be32(dts);
    Store(dst, off, [0, 0, 1, 0xE0] + Be16(ppl) + [0x84, 0xC0, 10] + clock);
  }

  /** The headers in front of the PES packets. */
  method PrefixMake(kind: FrameKind, t: bv64, dst: array<byte>, off: int) returns (n: int)
    requires 0 <= off && off + |Prefix(kind, t)| <= dst.Length
    modifies dst
    ensures n == |Prefix(kind, t)|
    ensures dst[..] == Splice(old(dst[..]), off, Prefix(kind, t))
  {
    SectionsAreWhole();
    ghost var was := dst[..];
    PackHeaderMake(t, dst, off);
    n := PACK_SIZE;
    if kind.I? {
      Store(dst, off + n, SYSTEM_HEADER);
      SpliceTwice(was, off, PackHeader(ScrBytes(t)), SYSTEM_HEADER);
      n := n + SYSTEM_SIZE;
      Store(dst, off + n, MAP_HEADER);
      SpliceTwice(was, off, PackHeader(ScrBytes(t)) + SYSTEM_HEADER, MAP_HEADER);
      n := n + MAP_SIZE;
      Reassociate(PackHeader(ScrBytes(t)), SYSTEM_HEADER, MAP_HEADER);
    } else {
      assert PackHeader(ScrBytes(t)) + [] == PackHeader(ScrBytes(t));
    }
  }

  /** One turn of the muxing loop. */
  method PesMake(src: array<byte>, from: int, n: int, t: bv64, dst: array<byte>, off: int) returns (m: int)
    requires dst != src && 0 < n && 0 <= from && from + n <= src.Length
    requires 0 <= off && off + PES_SIZE + PesPayload(n) <= dst.Length
    modifies dst
    ensures m == PesPayload(n)
    ensures dst[..] == Splice(old(dst[..]), off, PesHeader(n, ClockBytes(t)) + old(src[..])[from..from + m])
    ensures src[..] == old(src[..])
  {
    ghost var was, data := dst[..], src[..];
    PesHeaderMake(n, t, dst, off);
    m := if n > MAX_PES then MAX_PES else n;
    Copy(dst, off + PES_SIZE, src, from, m);
    SpliceTwice(was, off, PesHeader(n, ClockBytes(t)), data[from..from + m]);
  }

  /** The first `off` bytes of the program stream `whole` are in place, and the rest of it is what the
      bytes of `data` from `pos` to `end` still have to become. */
  ghost predicate Underway(buf: seq<byte>, was: seq<byte>, start: int, whole: seq<byte>, off: int,
                           data: seq<byte>, pos: int, end: int, clock: seq<byte>)
  {
    && 0 <= start && start + |whole| <= |was| && |clock| == 10
    && 0 <= pos <= end <= |data| && 0 <= off <= |whole|
    && whole[off..] == PesPackets(data[pos..end], clock)
    && buf == Splice(was, start, whole[..off])
  }

  /** One turn of the loop takes it one packet further. */
  method PesTurn(src: array<byte>, pos: int, left: int, t: bv64, dst: array<byte>, start: int, off: int,
                 ghost was: seq<byte>, ghost whole: seq<byte>, ghost end: int)
    returns (m: int)
    requires dst != src && 0 < left == end - pos
    requires Underway(dst[..], was, start, whole, off, src[..], pos, end, ClockBytes(t))
    modifies dst
    ensures 0 < m <= left && src[..] == old(src[..])
    ensures Underway(dst[..], was, start, whole, off + PES_SIZE + m, src[..], pos + m, end, ClockBytes(t))
  {
    ghost var data, clock, before := src[..], ClockBytes(t), dst[..];
    PacketFits(data[pos..end], left, clock, whole, off);
    m := PesMake(src, pos, left, t, dst, start + off);
    PacketAdvances(before, dst[..], was, start, whole, off, data, pos, pos + m, end, clock);
  }

  /** Once the next packet has been written behind what was there, one packet more is in place. */
  lemma PacketAdvances(before: seq<byte>, buf: seq<byte>, was: seq<byte>, start: int, whole: seq<byte>, off: int,
      data: seq<byte>, pos: int, next: int, end: int, clock: seq<byte>)
    requires Underway(before, was, start, whole, off, data, pos, end, clock) && pos < end
        && next == pos + PesPayload(end - pos)
    requires var packet := PesHeader(end - pos, clock) + data[pos..next];
      start + off + |packet| <= |before| && buf == Splice(before, start + off, packet)
    ensures Underway(buf, was, start, whole, off + PES_SIZE + (next - pos), data, next, end, clock)
  {
    var to := off + PES_SIZE + (next - pos);
    MuxAdvances(data, pos, next, end, end - pos, clock, whole, off, to);
    SpliceExtends(was, start, whole, off, to);
  }

  /** The muxing loop: PES packets until no byte of the frame remains. */
  method PesLoop(src: array<byte>, from: int, frameLen: int, t: bv64, dst: array<byte>, start: int) returns (len: int)
    requires dst != src && 0 <= frameLen && 0 <= from && from + frameLen <= src.Length
    requires 0 <= start && start + |PesPackets(src[..][from..from + frameLen], ClockBytes(t))| <= dst.Length
    modifies dst
    ensures len == |PesPackets(old(src[..])[from..from + frameLen], ClockBytes(t))|
    ensures dst[..] == Splice(old(dst[..]), start, PesPackets(old(src[..])[from..from + frameLen], ClockBytes(t)))
    ensures src[..] == old(src[..])
  {
    ghost var whole := PesPackets(src[..][from..from + frameLen], ClockBytes(t));
    assert whole[0..] == whole;
    len := WritePackets(src, from, frameLen, t, dst, start, dst[..], whole);
    assert whole[..|whole|] == whole;
  }

  method WritePackets(src: array<byte>, from: int, frameLen: int, t: bv64, dst: array<byte>, start: int,
                      ghost was: seq<byte>, ghost whole: seq<byte>)
    returns (len: int)
    requires dst != src && 0 <= frameLen
    requires Underway(dst[..], was, start, whole, 0, src[..], from, from + frameLen, ClockBytes(t))
    modifies dst
    ensures len == |whole| && dst[..] == Splice(was, start, whole[..len]) && src[..] == old(src[..])
  {
    ghost var end, data := from + frameLen, src[..];
    var off, pos, left := 0, from, frameLen;
    while left > 0
      invariant 0 <= left == end - pos && src[..] == data
      invariant Underway(dst[..], was, start, whole, off, data, pos, end, ClockBytes(t))
    {
      var m := PesTurn(src, pos, left, t, dst, start, off, was, whole, end);
      left, pos, off := left - m, pos + m, off + PES_SIZE + m;
    }
    assert data[pos..end] == [];
    assert |whole[off..]| == |whole| - off;
    len := off;
  }

  lemma PacketFits(data: seq<byte>, left: int, clock: seq<byte>, whole: seq<byte>, off: int)
    requires data != [] && |data| == left && |clock| == 10
    requires 0 <= off <= |whole| && whole[off..] == PesPackets(data, clock)
    ensures 0 < PesPayload(left) <= left && off + PES_SIZE + PesPayload(left) <= |whole|
  {
    assert |whole[off..]| == |whole| - off;
  }

  /** The next packet of the program stream continues what has been written of it. */
  lemma MuxAdvances(src: seq<byte>, pos: int, next: int, end: int, left: int, clock: seq<byte>, whole: seq<byte>,
        off: int,
      to: int)
    requires 0 <= pos < end <= |src| && left == end - pos && |clock| == 10
    requires next == pos + PesPayload(left) && to == off + PES_SIZE + PesPayload(left)
    requires 0 <= off <= |whole| && whole[off..] == PesPackets(src[pos..end], clock)
    ensures pos < next <= end && off <= to <= |whole|
    ensures whole[off..to] == PesHeader(left, clock) + src[pos..next]
    ensures whole[to..] == PesPackets(src[next..end], clock)
  {
    var packet := PesHeader(left, clock) + src[pos..next];
    SliceOfSlice(src, pos, end, 0, next - pos);
    SliceOfSlice(src, pos, end, next - pos, left);
    assert whole[off..] == packet + PesPackets(src[next..end], clock);
    TakeDrop(whole, off, packet, PesPackets(src[next..end], clock));
  }

  lemma TakeDrop(s: seq<byte>, off: int, a: seq<byte>, b: seq<byte>)
    requires 0 <= off <= |s| && s[off..] == a + b
    ensures off + |a| <= |s| && s[off..off + |a|] == a && s[off + |a|..] == b
  {
    assert |s[off..]| == |a| + |b|;
    assert forall k :: 0 <= k < |a| ==> s[off..off + |a|][k] == (a + b)[k];
    forall k | 0 <= k < |b|
      ensures s[off + |a|..][k] == b[k]
    {
      assert s[off..][|a| + k] == b[k];
    }
  }

  /** `ps_process`: the frame's program stream is written at `start`; nothing else changes. */
  method PsProcess(src: array<byte>, from: int, frameLen: int, kind: FrameKind, t: bv64, dst: array<byte>, start: int)
    returns (len: int)
    requires dst != src && 0 <= frameLen && 0 <= from && from + frameLen <= src.Length
    requires 0 <= start && start + MuxSize(kind, frameLen) <= dst.Length
    modifies dst
    ensures len == MuxSize(kind, frameLen) == |Mux(kind, old(src[..])[from..from + frameLen], t)|
    ensures dst[..] == Splice(old(dst[..]), start, Mux(kind, old(src[..])[from..from + frameLen], t))
    ensures src[..] == old(src[..])
  {
    ghost var was, data := dst[..], src[..];
    ghost var frame := data[from..from + frameLen];
    MuxHasSize(kind, frame, t);
    var off := PrefixMake(kind, t, dst, start);
    assert src[..] == data;
    var n := PesLoop(src, from, frameLen, t, dst, start + off);
    SpliceTwice(was, start, Prefix(kind, t), PesPackets(frame, ClockBytes(t)));
    len := off + n;
  }
}
