/** `set_rtp_pack1` and `get_rtp_ps_pack`: packets are made inside the program stream buffer, each
    header being written over the twelve bytes in front of its payload. */
module RtpPack {
  import opened Bytes
  import opened Buffers
  import opened Rtp

  class RtpInfo {
    var nalStart: int
    var nalEnd: int
    var eoFrame: bool
    var start: int
    var end: int
    var fuFlag: bool
    var eBit: bool
    var beginNal: bool
    var seqNo: int
    var timestamp: bv32
    const payloadType: int
    const ssrc: bv32

    /** `rtp_info_init`. */
    constructor (payloadType: int, ssrc: bv32)
      requires 0 <= payloadType < 128
      ensures this.payloadType == payloadType && this.ssrc == ssrc && seqNo == 0 && timestamp == 0
    {
      this.payloadType, this.ssrc := payloadType, ssrc;
      nalStart, nalEnd, start, end := 0, 0, 0, 0;
      eoFrame, fuFlag, eBit, beginNal := false, false, false, false;
      seqNo, timestamp := 0, 0;
    }

    ghost function St(): Stamp
      reads this
    {
      Stamp(payloadType, Be32(timestamp), Be32(ssrc))
    }

    /** A frame is being cut; the bytes from `end` on are still to be sent. */
    ghost predicate Cutting(size: int)
      reads this
    {
      && 0 <= payloadType < 128 && 0 <= seqNo < 0x1_0000 && eoFrame
      && HEADER_SIZE <= nalStart <= end <= nalEnd <= size
      && fuFlag == (nalEnd - nalStart > MAX_PAYLOAD)
      && (beginNal ==> start == end == nalStart)
      && (!fuFlag ==> end == nalStart || end == nalEnd)
      && (end < nalEnd ==> !eBit)
    }

    /** `set_rtp_pack1`. */
    method SetRtpPack1(off: int, size: int, time: bv32, endOfFrame: bool)
      modifies this
      ensures nalStart == start == end == off && nalEnd == off + size && eoFrame == endOfFrame
      ensures timestamp == time && fuFlag == (size > MAX_PAYLOAD) && !eBit && beginNal && seqNo == old(seqNo)
    {
      nalStart := off;
      eoFrame := endOfFrame;
      nalEnd := off + size;
      timestamp := time;
      if size > MAX_PAYLOAD {
        fuFlag := true;
        eBit := false;
      } else {
        fuFlag := false;
        eBit := false;
      }
      start, end := off, off;
      beginNal := true;
    }

    /** Writes the twelve header bytes at `cp`. */
    method WriteHeader(buf: array<byte>, cp: int, marker: bool)
      requires 0 <= payloadType < 128 && 0 <= cp && cp + HEADER_SIZE <= buf.Length
      modifies buf
      ensures buf[..] == Splice(old(buf[..]), cp, Header(marker, seqNo, St()))
    {
      Store(buf, cp,
            [0x80, U8((if marker then 128 else 0) + payloadType)] + Be16(seqNo) + Be32(timestamp) + Be32(ssrc));
    }

    /** `get_rtp_ps_pack`: the next packet, as place and size in the buffer, or nothing when the frame
        has been sent. */
    method GetRtpPsPack(buf: array<byte>) returns (found: bool, pRtp: int, packetSize: int)
      requires Cutting(buf.Length)
      modifies this, buf
      ensures Cutting(buf.Length) && nalStart == old(nalStart) && nalEnd == old(nalEnd) && timestamp == old(timestamp)
      ensures found == (old(end) < nalEnd)
      ensures !found ==> packetSize == 0 && seqNo == old(seqNo) && end == old(end) && buf[..] == old(buf[..])
      ensures found ==> var n := Chunk(nalEnd - old(end));
        && pRtp == old(end) - HEADER_SIZE && packetSize == HEADER_SIZE + n
        && end == old(end) + n && seqNo == NextSeq(old(seqNo))
        && buf[..] == Splice(old(buf[..]), pRtp, Header(end == nalEnd, old(seqNo), St()))
    {
      if end == nalEnd { return false, 0, 0; }
      if beginNal { beginNal := false; } else { start := end; }
      var bytesLeft := nalEnd - start;
      if bytesLeft > MAX_PAYLOAD { end := start + MAX_PAYLOAD; } else { end := start + bytesLeft; }
      if fuFlag && end == nalEnd { eBit := true; }
      var marker := eoFrame;
      if fuFlag && !eBit { marker := false; }
      var cp := start - HEADER_SIZE;
      WriteHeader(buf, cp, marker);
      if seqNo < 65535 { seqNo := seqNo + 1; } else { seqNo := 0; }
      start := cp + HEADER_SIZE;
      found, pRtp, packetSize := true, cp, HEADER_SIZE + (end - start);
    }
  }

  /** The header overwrites only bytes in front of the payload: the packet is header and payload as it
      was, and everything still to be sent is as it was. */
  lemma PacketInPlace(was: seq<byte>, h: seq<byte>, cp: int, end: int, nalEnd: int)
    requires |h| == HEADER_SIZE && 0 <= cp && cp + HEADER_SIZE <= end <= nalEnd <= |was|
    ensures var now := Splice(was, cp, h);
      now[cp..end] == h + was[cp + HEADER_SIZE..end] && now[end..nalEnd] == was[end..nalEnd]
  {
  }
}
